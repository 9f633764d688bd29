/** The DRF permission classes of the accaunt app. Each is a yes/no answer
    about the requesting user and the worker attached to it, if any. The
    role comparisons read the role by its code. */
module AccessChecks {
  import opened Wrappers
  import opened AccountModels

  /** The requesting user: its superuser flag and its worker, if any. */
  datatype Requester = Requester(isSuperuser: bool, worker: Option<WorkerGrants>)

  /** The code of the worker's role, if it has one. */
  function RoleCode(w: WorkerGrants): (code: Option<string>)
    ensures code.Some? <==> w.role.Some?
  {
    if w.role.Some? then Some(w.role.value.code) else None
  }

  /** IsSuperAdmin. */
  function IsSuperAdmin(r: Requester): (allowed: bool)
    ensures allowed <==> r.isSuperuser
  {
    r.isSuperuser
  }

  /** IsOwner. */
  function IsOwner(r: Requester): (allowed: bool)
    ensures allowed <==> r.worker.Some? && RoleCode(r.worker.value) == Some("owner")
  {
    r.worker.Some? && RoleCode(r.worker.value) == Some("owner")
  }

  /** IsManagerOrAbove. */
  function IsManagerOrAbove(r: Requester): (allowed: bool)
    ensures allowed <==> r.worker.Some? && RoleCode(r.worker.value) in {Some("owner"), Some("manager")}
    ensures IsOwner(r) ==> allowed
  {
    r.worker.Some? && RoleCode(r.worker.value) in {Some("owner"), Some("manager")}
  }

  /** IsSotuvchiOrAbove: despite its name it looks only at the status. */
  function IsSotuvchiOrAbove(r: Requester): (allowed: bool)
    ensures allowed <==> r.worker.Some? && r.worker.value.status == "active"
  {
    r.worker.Some? && r.worker.value.status == "active"
  }

  /** CanAccess(section). */
  function CanAccess(r: Requester, section: string): (allowed: bool)
    ensures allowed <==> r.worker.Some? && HasPermission(r.worker.value, section)
  {
    r.worker.Some? && HasPermission(r.worker.value, section)
  }

  /** The superuser check ignores the worker entirely. */
  lemma SuperAdminIgnoresWorker(r: Requester, w: Option<WorkerGrants>)
    ensures IsSuperAdmin(r) == IsSuperAdmin(r.(worker := w))
  {
  }

  /** Without a worker every worker-based check refuses, superuser or not. */
  lemma NoWorkerRefused(r: Requester, section: string)
    requires r.worker.None?
    ensures !IsOwner(r) && !IsManagerOrAbove(r) && !IsSotuvchiOrAbove(r) && !CanAccess(r, section)
  {
  }

  /** The checks do not form a ladder: an owner who is no longer active
      passes IsOwner and IsManagerOrAbove but fails IsSotuvchiOrAbove. */
  lemma InactiveOwnerFailsLowestCheck(r: Requester)
    requires IsOwner(r) && r.worker.value.status != "active"
    ensures IsManagerOrAbove(r) && !IsSotuvchiOrAbove(r)
  {
  }

  /** CanAccess grants a section exactly when the role or the worker's
      extras carry its code. */
  lemma CanAccessIff(r: Requester, section: string)
    requires r.worker.Some?
    ensures CanAccess(r, section) <==>
              (r.worker.value.role.Some? && section in Codes(r.worker.value.role.value.permissions))
              || section in Codes(r.worker.value.extraPermissions)
  {
    HasPermissionIff(r.worker.value, section);
  }
}
