/** Data migration 0004 of accaunt: the role "sotuvchi" becomes "seller",
    the status "deactive" becomes "ishdan_ketgan", and the permission code
    "sklad" becomes "ombor" in both lists of each worker's override. The
    reverse renames the other way. The Worker table is an array of rows,
    the bulk `.update()` calls are `forall` statements and the per-worker
    loop is a `for` loop. */
module Migration0004 {
  import opened AccountModels

  /** The columns of a Worker row that the migration reads or writes. */
  datatype WorkerRow = WorkerRow(role: string, status: string, extra: map<string, seq<string>>)

  /** The choices before the migration: the roles the permission classes
      name and the two values of WorkerStatus. */
  const OldRoleChoices: set<string> := {"owner", "manager", "sotuvchi"}
  const OldStatusChoices: set<string> := {"active", "deactive"}

  /** A single value renamed by a filtered bulk update. */
  function RenameValue(v: string, from: string, to: string): (r: string)
    ensures v == from ==> r == to
    ensures v != from ==> r == v
  {
    if v == from then to else v
  }

  /** The list comprehension that renames one code: every occurrence of
      `from` becomes `to`, everything else stays in place. */
  function Rename(l: seq<string>, from: string, to: string): (r: seq<string>)
    ensures |r| == |l|
    ensures forall i | 0 <= i < |l| :: r[i] == RenameValue(l[i], from, to)
  {
    seq(|l|, i requires 0 <= i < |l| => RenameValue(l[i], from, to))
  }

  /** After the rename no `from` is left. */
  lemma RenameRemovesAll(l: seq<string>, from: string, to: string)
    requires from != to
    ensures from !in Rename(l, from, to)
  {
  }

  /** A list changes under the rename exactly when it holds `from`; this is
      the `changed` flag of the loop. */
  lemma RenameChangesIff(l: seq<string>, from: string, to: string)
    requires from != to
    ensures Rename(l, from, to) != l <==> from in l
  {
    if from in l {
      var i :| 0 <= i < |l| && l[i] == from;
      assert Rename(l, from, to)[i] == to;
    }
  }

  /** Renaming back undoes a rename of a list that held no `to`. */
  lemma RenameRoundTrip(l: seq<string>, from: string, to: string)
    requires to !in l
    ensures Rename(Rename(l, from, to), to, from) == l
  {
  }

  /** What the loop does to one override object: each of the two lists is
      rewritten only when it holds `from`; a missing list stays missing. */
  function RenameExtra(e: map<string, seq<string>>, from: string, to: string): (r: map<string, seq<string>>)
    ensures r.Keys == e.Keys
    ensures CodeList(r, "added") == Rename(CodeList(e, "added"), from, to)
    ensures CodeList(r, "removed") == Rename(CodeList(e, "removed"), from, to)
    ensures forall k | k in e && k != "added" && k != "removed" :: r[k] == e[k]
  {
    var e1 := if from in CodeList(e, "added") then e["added" := Rename(CodeList(e, "added"), from, to)] else e;
    if from in CodeList(e1, "removed") then e1["removed" := Rename(CodeList(e1, "removed"), from, to)] else e1
  }

  /** Whether the loop saves a worker. */
  predicate NeedsRename(e: map<string, seq<string>>, from: string)
  {
    from in CodeList(e, "added") || from in CodeList(e, "removed")
  }

  /** A worker is saved exactly when its override changes. */
  lemma SavedIffChanged(e: map<string, seq<string>>, from: string, to: string)
    requires from != to
    ensures NeedsRename(e, from) <==> RenameExtra(e, from, to) != e
  {
    RenameChangesIff(CodeList(e, "added"), from, to);
    RenameChangesIff(CodeList(e, "removed"), from, to);
  }

  /** A row after the forward migration. */
  function ForwardRow(w: WorkerRow): WorkerRow
  {
    WorkerRow(RenameValue(w.role, "sotuvchi", "seller"),
              RenameValue(w.status, "deactive", "ishdan_ketgan"),
              RenameExtra(w.extra, "sklad", "ombor"))
  }

  /** A row after the reverse migration. */
  function ReverseRow(w: WorkerRow): WorkerRow
  {
    WorkerRow(RenameValue(w.role, "seller", "sotuvchi"),
              RenameValue(w.status, "ishdan_ketgan", "deactive"),
              RenameExtra(w.extra, "ombor", "sklad"))
  }

  /** The AlterField steps and the data step fit together: a row valid
      under the old choices is valid under the new ones after the forward
      migration, and the reverse brings the new choices back to the old
      ones, except "tatil", which had no old counterpart and is kept. */
  lemma ChoicesCarriedOver(w: WorkerRow)
    ensures w.role in OldRoleChoices ==> ForwardRow(w).role in RoleChoices
    ensures w.status in OldStatusChoices ==> ForwardRow(w).status in StatusChoices
    ensures w.role in RoleChoices ==> ReverseRow(w).role in OldRoleChoices
    ensures w.status in StatusChoices ==> (ReverseRow(w).status in OldStatusChoices <==> w.status != "tatil")
  {
  }

  /** The forward migration leaves only the new role, status and code. */
  lemma ForwardUsesNewNames(w: WorkerRow)
    ensures ForwardRow(w).role != "sotuvchi" && ForwardRow(w).status != "deactive"
    ensures "sklad" !in CodeList(ForwardRow(w).extra, "added")
    ensures "sklad" !in CodeList(ForwardRow(w).extra, "removed")
  {
    RenameRemovesAll(CodeList(w.extra, "added"), "sklad", "ombor");
    RenameRemovesAll(CodeList(w.extra, "removed"), "sklad", "ombor");
  }

  /** Forward then reverse gives the row back when the row did not already
      use any of the names the forward direction writes. */
  lemma {:induction false} RoundTrip(w: WorkerRow)
    requires w.role != "seller" && w.status != "ishdan_ketgan"
    requires "ombor" !in CodeList(w.extra, "added") && "ombor" !in CodeList(w.extra, "removed")
    ensures ReverseRow(ForwardRow(w)) == w
  {
    RenameRoundTrip(CodeList(w.extra, "added"), "sklad", "ombor");
    RenameRoundTrip(CodeList(w.extra, "removed"), "sklad", "ombor");
    var e := w.extra;
    var r := RenameExtra(RenameExtra(e, "sklad", "ombor"), "ombor", "sklad");
    forall k | k in e ensures r[k] == e[k] {
      if k == "added" {
        assert r[k] == CodeList(r, "added") && e[k] == CodeList(e, "added");
      } else if k == "removed" {
        assert r[k] == CodeList(r, "removed") && e[k] == CodeList(e, "removed");
      }
    }
    assert r == e;
  }

  /** The reverse cannot tell an "ombor" the forward wrote from one that was
      there before: a worker already granted "ombor" comes back with
      "sklad". */
  lemma RoundTripLosesExistingNewCode()
    ensures ReverseRow(ForwardRow(WorkerRow("manager", "active", map["added" := ["ombor"]])))
         == WorkerRow("manager", "active", map["added" := ["sklad"]])
  {
    var e := map["added" := ["ombor"]];
    assert CodeList(e, "added") == ["ombor"];
    assert Rename(["ombor"], "sklad", "ombor") == ["ombor"];
    assert Rename(["ombor"], "ombor", "sklad") == ["sklad"];
    var f := RenameExtra(e, "sklad", "ombor");
    assert f == e;
    var b := RenameExtra(f, "ombor", "sklad");
    assert b.Keys == {"added"};
    assert b["added"] == CodeList(b, "added") == ["sklad"];
  }

  /** The body of the loop for one override object: each list is
      rewritten only when it holds `from`, and `changed` records whether
      either was. */
  method RewriteOverride(e: map<string, seq<string>>, from: string, to: string)
    returns (ep: map<string, seq<string>>, changed: bool)
    requires from != to
    ensures ep == RenameExtra(e, from, to)
    ensures changed <==> NeedsRename(e, from)
    ensures changed <==> ep != e
  {
    ep := e;
    changed := false;
    var added := CodeList(ep, "added");
    if from in added {
      ep := ep["added" := Rename(added, from, to)];
      changed := true;
    }
    var removed := CodeList(ep, "removed");
    if from in removed {
      ep := ep["removed" := Rename(removed, from, to)];
      changed := true;
    }
    SavedIffChanged(e, from, to);
  }

  /** The loop of either direction: rewrite `from` to `to` in each
      non-empty override that holds it, and save exactly those workers. */
  method RenameCodesInPlace(rows: array<WorkerRow>, from: string, to: string) returns (saved: set<nat>)
    requires from != to
    modifies rows
    ensures forall i | 0 <= i < rows.Length :: rows[i] == old(rows[i]).(extra := RenameExtra(old(rows[i]).extra, from, to))
    ensures forall i: nat :: i in saved <==> i < rows.Length && NeedsRename(old(rows[i]).extra, from)
  {
    saved := {};
    for i := 0 to rows.Length
      invariant forall j | 0 <= j < i :: rows[j] == old(rows[j]).(extra := RenameExtra(old(rows[j]).extra, from, to))
      invariant forall j | i <= j < rows.Length :: rows[j] == old(rows[j])
      invariant forall j: nat :: j in saved <==> j < i && NeedsRename(old(rows[j]).extra, from)
    {
      if rows[i].extra != map[] {
        var ep, changed := RewriteOverride(rows[i].extra, from, to);
        if changed {
          rows[i] := rows[i].(extra := ep);
          saved := saved + {i};
        }
      } else {
        assert CodeList(rows[i].extra, "added") == [] && CodeList(rows[i].extra, "removed") == [];
      }
    }
  }

  /** migrate_worker_data: two bulk updates, then the per-worker loop. */
  method MigrateWorkerData(rows: array<WorkerRow>) returns (saved: set<nat>)
    modifies rows
    ensures forall i | 0 <= i < rows.Length :: rows[i] == ForwardRow(old(rows[i]))
    ensures forall i: nat :: i in saved <==> i < rows.Length && NeedsRename(old(rows[i]).extra, "sklad")
  {
    forall i | 0 <= i < rows.Length && rows[i].role == "sotuvchi" {
      rows[i] := rows[i].(role := "seller");
    }
    forall i | 0 <= i < rows.Length && rows[i].status == "deactive" {
      rows[i] := rows[i].(status := "ishdan_ketgan");
    }
    saved := RenameCodesInPlace(rows, "sklad", "ombor");
  }

  /** reverse_migrate_worker_data: the same steps with the names swapped. */
  method ReverseMigrateWorkerData(rows: array<WorkerRow>) returns (saved: set<nat>)
    modifies rows
    ensures forall i | 0 <= i < rows.Length :: rows[i] == ReverseRow(old(rows[i]))
    ensures forall i: nat :: i in saved <==> i < rows.Length && NeedsRename(old(rows[i]).extra, "ombor")
  {
    forall i | 0 <= i < rows.Length && rows[i].role == "seller" {
      rows[i] := rows[i].(role := "sotuvchi");
    }
    forall i | 0 <= i < rows.Length && rows[i].status == "ishdan_ketgan" {
      rows[i] := rows[i].(status := "deactive");
    }
    saved := RenameCodesInPlace(rows, "ombor", "sklad");
  }
}
