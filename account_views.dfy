/** WorkerViewSet: which workers a caller sees, and the status transitions
    of `destroy`, `activate` and `deactivate`. The permission classes that
    guard each action are in AccessChecks; the methods here model the action
    bodies once those have let the request through. */
module AccountViews {
  import opened Wrappers
  import opened AccountModels

  /** The status the views write when a worker is switched off. */
  const Deactive: string := "deactive"

  // ---------------------------------------------------------------------
  // Listing
  // ---------------------------------------------------------------------

  /** The caller's worker, reduced to its store; NoWorker for a user without
      one (a superadmin, say). */
  datatype WorkerCaller = NoWorker | WorkerOfStore(store: Option<nat>)

  /** get_queryset: the workers of the caller's own store, nothing for a
      caller without a worker or without a store. `workers` maps each worker
      id to its store. */
  function VisibleWorkers(c: WorkerCaller, workers: map<nat, Option<nat>>): (ids: set<nat>)
    ensures ids <= workers.Keys
    ensures forall id | id in workers :: id in ids <==> c.WorkerOfStore? && c.store.Some? && workers[id] == c.store
  {
    if c.WorkerOfStore? && c.store.Some? then set id | id in workers && workers[id] == c.store
    else {}
  }

  /** A superadmin without a worker, or a worker without a store, lists no
      one; and a worker without a store is listed to no one. */
  lemma StorelessListsNothing(c: WorkerCaller, workers: map<nat, Option<nat>>, id: nat)
    ensures c.NoWorker? || c.store.None? ==> VisibleWorkers(c, workers) == {}
    ensures id in workers && workers[id].None? ==> id !in VisibleWorkers(c, workers)
  {
  }

  /** Two callers of different stores see disjoint sets of workers. */
  lemma TenantsDisjoint(a: nat, b: nat, workers: map<nat, Option<nat>>)
    requires a != b
    ensures VisibleWorkers(WorkerOfStore(Some(a)), workers) !! VisibleWorkers(WorkerOfStore(Some(b)), workers)
  {
  }

  // ---------------------------------------------------------------------
  // Status transitions
  // ---------------------------------------------------------------------

  /** The three status-changing actions. */
  datatype StatusAction = Activate | Deactivate | Destroy

  /** The HTTP status an action answers and the worker status it leaves. */
  datatype Outcome = Outcome(code: int, status: string)

  /** One action on a worker of the given role and status. `activate`
      refuses an already active worker; `deactivate` refuses an already
      deactivated worker, then an owner; `destroy` always switches the
      worker off. */
  function Step(a: StatusAction, role: string, status: string): (o: Outcome)
    ensures o.code in {200, 400, 403}
    ensures o.code != 200 ==> o.status == status
    ensures a.Activate? ==> (o.code == 400 <==> status == "active")
    ensures a.Activate? && o.code == 200 ==> o.status == "active"
    ensures a.Deactivate? ==> (o.code == 400 <==> status == Deactive)
    ensures a.Deactivate? ==> (o.code == 403 <==> status != Deactive && role == "owner")
    ensures a.Deactivate? && o.code == 200 ==> o.status == Deactive
    ensures a.Destroy? ==> o == Outcome(200, Deactive)
  {
    match a
    case Activate =>
      if status == "active" then Outcome(400, status) else Outcome(200, "active")
    case Deactivate =>
      if status == Deactive then Outcome(400, status)
      else if role == "owner" then Outcome(403, status)
      else Outcome(200, Deactive)
    case Destroy =>
      Outcome(200, Deactive)
  }

  /** The status after a run of actions on one worker. */
  function Run(role: string, status: string, actions: seq<StatusAction>): string
    decreases |actions|
  {
    if actions == [] then status
    else Run(role, Step(actions[0], role, status).status, actions[1..])
  }

  /** An owner can be switched off only by `destroy`: however `activate`
      and `deactivate` are interleaved, an owner that is not deactivated
      stays that way. */
  lemma {:induction false} OwnerSurvivesDeactivate(status: string, actions: seq<StatusAction>)
    requires status != Deactive
    requires forall i | 0 <= i < |actions| :: !actions[i].Destroy?
    ensures Run("owner", status, actions) != Deactive
    decreases |actions|
  {
    if actions != [] {
      var next := Step(actions[0], "owner", status).status;
      assert next != Deactive;
      OwnerSurvivesDeactivate(next, actions[1..]);
    }
  }

  /** `destroy` bypasses the owner guard of `deactivate`. */
  lemma DestroyDeactivatesOwner(status: string)
    requires status != Deactive
    ensures Step(Deactivate, "owner", status).code == 403
    ensures Step(Destroy, "owner", status) == Outcome(200, Deactive)
  {
  }

  /** Each successful action is refused when repeated. */
  lemma RepeatRefused(a: StatusAction, role: string, status: string)
    requires !a.Destroy?
    requires Step(a, role, status).code == 200
    ensures Step(a, role, Step(a, role, status).status).code == 400
  {
  }

  /** The status `deactivate` and `destroy` write is not one of the status
      field's choices. */
  lemma DeactiveOutsideChoices()
    ensures Deactive !in StatusChoices
    ensures Step(Destroy, "seller", "active").status !in StatusChoices
  {
  }

  /** The `activate` action on a worker found in the caller's store. */
  method ActivateWorker(w: Worker) returns (code: int)
    modifies w
    ensures Outcome(code, w.status) == Step(Activate, w.role, old(w.status))
    ensures w.role == old(w.role) && w.store == old(w.store) && w.branch == old(w.branch)
    ensures w.extraPermissions == old(w.extraPermissions)
  {
    if w.status == "active" {
      return 400;
    }
    w.status := "active";
    code := 200;
  }

  /** The `deactivate` action on a worker found in the caller's store. */
  method DeactivateWorker(w: Worker) returns (code: int)
    modifies w
    ensures Outcome(code, w.status) == Step(Deactivate, w.role, old(w.status))
    ensures w.role == old(w.role) && w.store == old(w.store) && w.branch == old(w.branch)
    ensures w.extraPermissions == old(w.extraPermissions)
  {
    if w.status == Deactive {
      return 400;
    }
    if w.role == "owner" {
      return 403;
    }
    w.status := Deactive;
    code := 200;
  }

  /** `destroy` (perform_destroy): a soft delete that only rewrites the
      status. */
  method DestroyWorker(w: Worker) returns (code: int)
    modifies w
    ensures Outcome(code, w.status) == Step(Destroy, w.role, old(w.status))
    ensures w.role == old(w.role) && w.store == old(w.store) && w.branch == old(w.branch)
    ensures w.extraPermissions == old(w.extraPermissions)
  {
    w.status := Deactive;
    code := 200;
  }
}
