/**
 * The observable project store (src/state/project-state.ts, repeated in
 * src/app.ts:35-93): an ordered list of projects and an ordered list of
 * listeners, notified with a copy of the projects after every change.
 *
 * Listener callbacks are not run here. Each call the store makes is
 * recorded instead, in the ghost `log`, as the listener's registration
 * position and the array it was handed.
 */
module ProjectStore {
  import opened Wrappers
  import opened ProjectModel

  /** One listener call: which registered listener, and the snapshot it got. */
  datatype Delivery = Delivery(listener: nat, snapshot: seq<Project>)

  /** `projects.find(prj => prj.id === id)`, as the position of the first match. */
  function FindIndex(ps: seq<Project>, id: string): (r: Option<nat>)
    ensures r.None? <==> forall k | 0 <= k < |ps| :: ps[k].id != id
    ensures r.Some? ==> r.value < |ps| && ps[r.value].id == id
    ensures r.Some? ==> forall k | 0 <= k < r.value :: ps[k].id != id
  {
    if ps == [] then None
    else if ps[0].id == id then Some(0)
    else match FindIndex(ps[1..], id)
      case None => None
      case Some(i) => Some(i + 1)
  }

  /** A move takes effect: some project has the id and the first one has another status. */
  predicate Changes(ps: seq<Project>, id: string, s: ProjectStatus) {
    var found := FindIndex(ps, id);
    found.Some? && ps[found.value].status != s
  }

  /**
   * The projects after `moveProject(id, s)`. Nothing changes unless the move
   * takes effect; then only the status of the first project with that id
   * becomes `s`. Length, order and every identity field are always kept.
   */
  function Moved(ps: seq<Project>, id: string, s: ProjectStatus): (r: seq<Project>)
    ensures |r| == |ps|
    ensures forall k | 0 <= k < |ps| ::
      r[k].id == ps[k].id && r[k].title == ps[k].title
      && r[k].description == ps[k].description && r[k].numberOfPeople == ps[k].numberOfPeople
    ensures !Changes(ps, id, s) ==> r == ps
    ensures Changes(ps, id, s) ==>
      var i := FindIndex(ps, id).value;
      r[i].status == s && forall k | 0 <= k < |ps| && k != i :: r[k] == ps[k]
  {
    match FindIndex(ps, id)
    case None => ps
    case Some(i) => if ps[i].status == s then ps else ps[i := ps[i].(status := s)]
  }

  /** One notification round: each of `n` listeners, in registration order, gets `ps`. */
  function Round(n: nat, ps: seq<Project>): (r: seq<Delivery>)
    ensures |r| == n
    ensures forall k | 0 <= k < n :: r[k] == Delivery(k, ps)
  {
    if n == 0 then [] else Round(n - 1, ps) + [Delivery(n - 1, ps)]
  }

  /** The snapshot the listener at position `listener` received last, if any. */
  ghost function LastDelivered(log: seq<Delivery>, listener: nat): Option<seq<Project>> {
    if log == [] then None
    else if log[|log| - 1].listener == listener then Some(log[|log| - 1].snapshot)
    else LastDelivered(log[..|log| - 1], listener)
  }

  /**
   * After a round, every listener it reached holds the round's snapshot as
   * its latest one; the others still hold what they had.
   */
  lemma {:induction false} RoundDeliversSnapshot(log: seq<Delivery>, n: nat, ps: seq<Project>, k: nat)
    ensures k < n ==> LastDelivered(log + Round(n, ps), k) == Some(ps)
    ensures k >= n ==> LastDelivered(log + Round(n, ps), k) == LastDelivered(log, k)
  {
    if n > 0 {
      var before := log + Round(n - 1, ps);
      var after := log + Round(n, ps);
      assert after == before + [Delivery(n - 1, ps)];
      assert after[..|after| - 1] == before;
      if k != n - 1 {
        RoundDeliversSnapshot(log, n - 1, ps, k);
        assert LastDelivered(after, k) == LastDelivered(before, k);
      }
    } else {
      assert log + Round(n, ps) == log;
    }
  }

  /** A move notifies exactly when it changes the project list. */
  lemma MoveNotifiesIffChanged(ps: seq<Project>, id: string, s: ProjectStatus)
    ensures Changes(ps, id, s) <==> Moved(ps, id, s) != ps
  {
  }

  /** No two projects share an id. The source relies on it without enforcing it. */
  predicate UniqueIds(ps: seq<Project>) {
    forall i, j | 0 <= i < j < |ps| :: ps[i].id != ps[j].id
  }

  /** Appending a project whose id is new keeps ids unique. */
  lemma AddKeepsIdsUnique(ps: seq<Project>, p: Project)
    requires UniqueIds(ps)
    requires forall k | 0 <= k < |ps| :: ps[k].id != p.id
    ensures UniqueIds(ps + [p])
  {
  }

  /** With unique ids, the first match that a move looks up is the only match. */
  lemma UniqueIdsFindOnlyMatch(ps: seq<Project>, id: string, k: nat)
    requires UniqueIds(ps)
    requires k < |ps| && ps[k].id == id
    ensures FindIndex(ps, id) == Some(k)
  {
  }

  /** The store. `projects` and `listeners` only ever grow by appending. */
  class ProjectState {
    var listeners: seq<object>
    var projects: seq<Project>
    ghost var log: seq<Delivery>

    constructor ()
      ensures listeners == [] && projects == [] && log == []
    {
      listeners := [];
      projects := [];
      log := [];
    }

    /** Registers a callback at the end of the list, with no de-duplication. */
    method AddListener(listenerFn: object)
      modifies this`listeners
      ensures listeners == old(listeners) + [listenerFn]
    {
      listeners := listeners + [listenerFn];
    }

    /**
     * Appends an active project and notifies every listener once. The id is
     * the caller's: the source draws it from `Math.random()`.
     */
    method AddProject(id: string, title: string, description: string, numOfPeople: int)
      modifies this`projects, this`log
      ensures projects == old(projects) + [Project(id, title, description, numOfPeople, Active)]
      ensures log == old(log) + Round(|listeners|, projects)
    {
      var newProject := Project(id, title, description, numOfPeople, Active);
      projects := projects + [newProject];
      UpdateListeners();
    }

    /**
     * Sets the status of the first project with `projectId` and notifies, but
     * only when that project exists and its status differs; otherwise does
     * nothing at all.
     */
    method MoveProject(projectId: string, newStatus: ProjectStatus)
      modifies this`projects, this`log
      ensures projects == Moved(old(projects), projectId, newStatus)
      ensures log == if Changes(old(projects), projectId, newStatus)
                     then old(log) + Round(|listeners|, projects)
                     else old(log)
    {
      var found := FindIndex(projects, projectId);
      if found.Some? && projects[found.value].status != newStatus {
        var i := found.value;
        projects := projects[i := projects[i].(status := newStatus)];
        UpdateListeners();
      }
    }

    /** Calls every listener, in registration order, with a copy of `projects`. */
    method UpdateListeners()
      modifies this`log
      ensures log == old(log) + Round(|listeners|, projects)
    {
      var i := 0;
      while i < |listeners|
        invariant 0 <= i <= |listeners|
        invariant log == old(log) + Round(i, projects)
      {
        log := log + [Delivery(i, projects)];
        i := i + 1;
      }
    }
  }

  /** The static `instance` field behind `ProjectState.getInstance()`. */
  class InstanceSlot {
    var instance: ProjectState?

    constructor ()
      ensures instance == null
    {
      instance := null;
    }

    /** Creates the store on the first call and returns that same store on every call. */
    method GetInstance() returns (s: ProjectState)
      modifies this
      ensures instance == s
      ensures old(instance) != null ==> s == old(instance)
      ensures old(instance) == null ==> fresh(s) && s.listeners == [] && s.projects == [] && s.log == []
    {
      if instance != null {
        return instance;
      }
      instance := new ProjectState();
      return instance;
    }
  }
}
