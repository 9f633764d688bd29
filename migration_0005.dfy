/** Data migration 0005 of accaunt: the per-worker override object is
    replaced by the full list of the worker's permission codes, and back.
    Forward computes sorted((defaults ∪ added) − removed); reverse computes
    added = permissions − defaults and removed = defaults − permissions. */
module Migration0005 {
  import opened Codes
  import opened AccountModels
  import opened AccountSerializers

  /** The role defaults the migration writes out (forward and reverse use
      the same sets). */
  const OwnerDefaults: set<string> :=
    {"boshqaruv", "sotuv", "dokonlar", "ombor", "mahsulotlar", "xodimlar", "savdolar", "xarajatlar", "mijozlar", "sozlamalar"}
  const ManagerDefaults: set<string> :=
    {"boshqaruv", "sotuv", "dokonlar", "ombor", "mahsulotlar", "xodimlar", "savdolar", "xarajatlar", "mijozlar"}
  const SellerDefaults: set<string> := {"sotuv", "savdolar", "mijozlar", "ombor", "mahsulotlar"}

  const RoleDefaults: map<string, set<string>> :=
    map["owner" := OwnerDefaults, "manager" := ManagerDefaults, "seller" := SellerDefaults]

  /** The defaults form a ladder: seller below manager below owner, the
      owner alone having "sozlamalar". */
  lemma DefaultsLadder()
    ensures SellerDefaults < ManagerDefaults < OwnerDefaults
    ensures OwnerDefaults - ManagerDefaults == {"sozlamalar"}
    ensures DefaultsFor(RoleDefaults, "sotuvchi") == {}
  {
  }

  /** The columns the migration reads and writes. */
  datatype WorkerRow = WorkerRow(role: string, extra: map<string, seq<string>>, permissions: seq<string>)

  /** migrate_to_permissions for one worker. */
  function ForwardPermissions(role: string, extra: map<string, seq<string>>): (p: seq<string>)
    ensures StrictlySorted(p)
    ensures Elems(p) == Effective(OverrideOf(extra), DefaultsFor(RoleDefaults, role))
  {
    var base := DefaultsFor(RoleDefaults, role);
    var added := Elems(CodeList(extra, "added"));
    var removed := Elems(CodeList(extra, "removed"));
    SortedCodes((base + added) - removed)
  }

  /** reverse_to_extra_permissions for one worker. */
  function ReverseExtra(role: string, permissions: seq<string>): (extra: map<string, seq<string>>)
    ensures Canonical(OverrideOf(extra), DefaultsFor(RoleDefaults, role))
    ensures Effective(OverrideOf(extra), DefaultsFor(RoleDefaults, role)) == Elems(permissions)
  {
    var current := Elems(permissions);
    var base := DefaultsFor(RoleDefaults, role);
    var o := Override(current - base, base - current);
    assert Effective(o, base) == current by {
      forall c ensures c in Effective(o, base) <==> c in current {
      }
    }
    StoredOverride(o)
  }

  /** An unknown role has no defaults: its permissions are its own
      additions minus its removals. */
  lemma UnknownRoleOnlyOverride(role: string, extra: map<string, seq<string>>)
    requires role !in RoleDefaults
    ensures Elems(ForwardPermissions(role, extra)) == Elems(CodeList(extra, "added")) - Elems(CodeList(extra, "removed"))
  {
  }

  /** Reverse then forward sorts the list and drops its duplicates; on a
      list that is already sorted and duplicate-free it gives the list
      back. */
  lemma {:induction false} ForwardAfterReverse(role: string, permissions: seq<string>)
    ensures ForwardPermissions(role, ReverseExtra(role, permissions)) == SortedCodes(Elems(permissions))
    ensures StrictlySorted(permissions) ==> ForwardPermissions(role, ReverseExtra(role, permissions)) == permissions
  {
    var p := ForwardPermissions(role, ReverseExtra(role, permissions));
    StrictlySortedUnique(p, SortedCodes(Elems(permissions)));
    if StrictlySorted(permissions) {
      StrictlySortedUnique(p, permissions);
    }
  }

  /** Forward then reverse gives back every override in the form the
      permission update stores. */
  lemma {:induction false} ReverseAfterForward(role: string, o: Override)
    requires Canonical(o, DefaultsFor(RoleDefaults, role))
    ensures ReverseExtra(role, ForwardPermissions(role, StoredOverride(o))) == StoredOverride(o)
  {
    var base := DefaultsFor(RoleDefaults, role);
    var back := OverrideOf(ReverseExtra(role, ForwardPermissions(role, StoredOverride(o))));
    assert Effective(back, base) == Effective(o, base);
    CanonicalDeterminedByEffective(back, o, base);
  }

  /** Every override the permission update can leave behind survives the
      migration and its reverse. */
  lemma UpdatedOverrideRoundTrips(role: string, cur: Override, req: PermissionRequest)
    ensures var o := NormalizeOverride(cur, req, DefaultsFor(RoleDefaults, role));
            ReverseExtra(role, ForwardPermissions(role, StoredOverride(o))) == StoredOverride(o)
  {
    ReverseAfterForward(role, NormalizeOverride(cur, req, DefaultsFor(RoleDefaults, role)));
  }

  /** An override that grants a code the role already has is not
      canonical, and the round trip drops the redundant grant; a seller's
      grant of "sotuv" is one. */
  lemma RedundantGrantDropped(role: string, code: string)
    requires code in DefaultsFor(RoleDefaults, role)
    ensures ReverseExtra(role, ForwardPermissions(role, map["added" := [code]]))
         == map["added" := [], "removed" := []]
    ensures role == "seller" ==> "sotuv" in DefaultsFor(RoleDefaults, role)
  {
    var base := DefaultsFor(RoleDefaults, role);
    var e := map["added" := [code]];
    assert CodeList(e, "added") == [code] && CodeList(e, "removed") == [];
    assert Elems([code]) == {code};
    ElemsEmpty([]);
    var p := ForwardPermissions(role, e);
    assert Elems(p) == base;
    var extra := ReverseExtra(role, p);
    CanonicalDeterminedByEffective(OverrideOf(extra), Override({}, {}), base);
    ElemsEmpty(extra["added"]);
    ElemsEmpty(extra["removed"]);
  }

  /** A row after migrate_to_permissions. */
  function MigratedRow(w: WorkerRow): WorkerRow
  {
    w.(permissions := ForwardPermissions(w.role, w.extra))
  }

  /** A row after reverse_to_extra_permissions. */
  function RestoredRow(w: WorkerRow): WorkerRow
  {
    w.(extra := ReverseExtra(w.role, w.permissions))
  }

  /** The loop both directions run: each worker row in turn is replaced by
      its image under `f` and saved. */
  method UpdateEachRow(rows: array<WorkerRow>, f: WorkerRow -> WorkerRow)
    modifies rows
    ensures forall i | 0 <= i < rows.Length :: rows[i] == f(old(rows[i]))
  {
    for i := 0 to rows.Length
      invariant forall j | 0 <= j < i :: rows[j] == f(old(rows[j]))
      invariant forall j | i <= j < rows.Length :: rows[j] == old(rows[j])
    {
      rows[i] := f(rows[i]);
    }
  }

  /** migrate_to_permissions: each worker gets its computed list. */
  method MigrateToPermissions(rows: array<WorkerRow>)
    modifies rows
    ensures forall i | 0 <= i < rows.Length ::
              rows[i] == MigratedRow(old(rows[i]))
  {
    UpdateEachRow(rows, MigratedRow);
  }

  /** reverse_to_extra_permissions: each worker gets its override back. */
  method ReverseToExtraPermissions(rows: array<WorkerRow>)
    modifies rows
    ensures forall i | 0 <= i < rows.Length ::
              rows[i] == RestoredRow(old(rows[i]))
  {
    UpdateEachRow(rows, RestoredRow);
  }
}
