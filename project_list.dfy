/**
 * A project list bound to one status, and drop target
 * (src/components/project-list.ts, repeated in src/app.ts:223-309).
 */
module ProjectListView {
  import opened Wrappers
  import opened ProjectModel
  import opened ProjectStore
  import opened DragDrop
  import opened ProjectItemView

  /** The `'active' | 'finished'` type a list is built with. */
  datatype ListType = ActiveList | FinishedList

  function TypeName(t: ListType): string {
    if t == ActiveList then "active" else "finished"
  }

  /** The id given to the list's `ul`, which hosts its items. */
  function ListElementId(t: ListType): string {
    TypeName(t) + "-project-list"
  }

  /** The status a drop on the list asks for: Active for 'active', Finished otherwise. */
  function DropStatus(t: ListType): (s: ProjectStatus)
    ensures s == Active <==> t == ActiveList
  {
    if t == ActiveList then Active else Finished
  }

  /** The filter callback of the list's listener. */
  predicate IsRelevant(t: ListType, p: Project) {
    if t == ActiveList then p.status == Active else p.status == Finished
  }

  /** A list shows exactly the projects whose status a drop on it would set. */
  lemma RelevantIffDropStatus(t: ListType, p: Project)
    ensures IsRelevant(t, p) <==> p.status == DropStatus(t)
  {
  }

  /** `a` is `b` with some elements left out, the rest in their order. */
  predicate IsSubsequence<T(==)>(a: seq<T>, b: seq<T>)
    decreases |b|
  {
    a == [] || (b != [] && ((a[0] == b[0] && IsSubsequence(a[1..], b[1..])) || IsSubsequence(a, b[1..])))
  }

  /** How many projects of `ps` the list shows. */
  function CountRelevant(t: ListType, ps: seq<Project>): nat {
    if ps == [] then 0 else (if IsRelevant(t, ps[0]) then 1 else 0) + CountRelevant(t, ps[1..])
  }

  /**
   * `projects.filter(...)` for the list's status: only relevant projects,
   * drawn from `ps` in order, and as many as `ps` holds.
   */
  function Relevant(t: ListType, ps: seq<Project>): (r: seq<Project>)
    ensures forall k | 0 <= k < |r| :: IsRelevant(t, r[k])
    ensures IsSubsequence(r, ps)
    ensures |r| == CountRelevant(t, ps)
  {
    if ps == [] then []
    else if IsRelevant(t, ps[0]) then [ps[0]] + Relevant(t, ps[1..])
    else Relevant(t, ps[1..])
  }

  /** A subsequence of relevant projects cannot be longer than the relevant count. */
  lemma {:induction false} RelevantSubsequenceBound(t: ListType, r: seq<Project>, ps: seq<Project>)
    requires IsSubsequence(r, ps)
    requires forall k | 0 <= k < |r| :: IsRelevant(t, r[k])
    ensures |r| <= CountRelevant(t, ps)
    decreases |ps|
  {
    if r != [] {
      if r[0] == ps[0] && IsSubsequence(r[1..], ps[1..]) {
        RelevantSubsequenceBound(t, r[1..], ps[1..]);
      } else {
        RelevantSubsequenceBound(t, r, ps[1..]);
      }
    }
  }

  /**
   * The filter result is the only subsequence of relevant projects that
   * leaves none out: keeping all of them in order pins it down.
   */
  lemma {:induction false} RelevantIsUnique(t: ListType, r: seq<Project>, ps: seq<Project>)
    requires IsSubsequence(r, ps)
    requires forall k | 0 <= k < |r| :: IsRelevant(t, r[k])
    requires |r| == CountRelevant(t, ps)
    ensures r == Relevant(t, ps)
    decreases |ps|
  {
    if r != [] {
      if r[0] == ps[0] && IsSubsequence(r[1..], ps[1..]) {
        if IsRelevant(t, ps[0]) {
          RelevantIsUnique(t, r[1..], ps[1..]);
        } else {
          assert false;
        }
      } else {
        RelevantSubsequenceBound(t, r, ps[1..]);
        if IsRelevant(t, ps[0]) {
          assert false;
        } else {
          RelevantIsUnique(t, r, ps[1..]);
        }
      }
    } else if ps != [] {
      if IsRelevant(t, ps[0]) {
        assert false;
      } else {
        RelevantIsUnique(t, r, ps[1..]);
      }
    }
  }

  /** A project is shown exactly when it is in the snapshot and relevant. */
  lemma {:induction false} RelevantMembers(t: ListType, ps: seq<Project>, p: Project)
    ensures p in Relevant(t, ps) <==> p in ps && IsRelevant(t, p)
  {
    if ps != [] {
      RelevantMembers(t, ps[1..], p);
      assert ps == [ps[0]] + ps[1..];
    }
  }

  /**
   * What a list of type `t`, whose callback sits at position `index` among
   * the store's listeners, holds as `assignedProjects` once the store's
   * calls so far have run: nothing before its first call, then the relevant
   * part of the last snapshot it was handed.
   */
  ghost function ListView(t: ListType, log: seq<Delivery>, index: nat): seq<Project> {
    match LastDelivered(log, index)
    case None => []
    case Some(snapshot) => Relevant(t, snapshot)
  }

  /** After a notification round, every list it reached shows the relevant current projects. */
  lemma ListViewAfterRound(t: ListType, log: seq<Delivery>, n: nat, ps: seq<Project>, index: nat)
    requires index < n
    ensures ListView(t, log + Round(n, ps), index) == Relevant(t, ps)
  {
    RoundDeliversSnapshot(log, n, ps, index);
  }

  class ProjectList {
    const listType: ListType
    /** The position of this list's callback among the store's listeners. */
    const index: nat
    var assignedProjects: seq<Project>
    /** Whether the `ul` carries the "droppable" class. */
    var droppable: bool
    /** The items rendered in the `ul`, in order. */
    var items: seq<ProjectItem>

    /** Starts with no projects and registers the list's callback with the store. */
    constructor (t: ListType, store: ProjectState)
      modifies store`listeners
      ensures listType == t && assignedProjects == [] && !droppable && items == []
      ensures index == |old(store.listeners)| && store.listeners == old(store.listeners) + [this]
    {
      listType := t;
      index := |store.listeners|;
      assignedProjects := [];
      droppable := false;
      items := [];
      new;
      store.AddListener(this);
    }

    /** Accepts the drag only when its first type is "text/plain". */
    method DragOverHandler(dataTransfer: DataTransfer?) returns (preventDefault: bool)
      modifies this`droppable
      ensures preventDefault <==>
        dataTransfer != null && |dataTransfer.Types()| > 0 && dataTransfer.Types()[0] == "text/plain"
      ensures droppable == (old(droppable) || preventDefault)
    {
      preventDefault := false;
      if dataTransfer != null && |dataTransfer.Types()| > 0 && dataTransfer.Types()[0] == "text/plain" {
        preventDefault := true;
        droppable := true;
      }
    }

    /** Moves the dragged project to the list's status; the droppable flag stays as it is. */
    method DropHandler(dataTransfer: DataTransfer, store: ProjectState)
      modifies store`projects, store`log
      ensures store.projects == Moved(old(store.projects), dataTransfer.GetData("text/plain"), DropStatus(listType))
      ensures store.log == if Changes(old(store.projects), dataTransfer.GetData("text/plain"), DropStatus(listType))
                           then old(store.log) + Round(|store.listeners|, store.projects)
                           else old(store.log)
      ensures droppable == old(droppable)
    {
      var projectId := dataTransfer.GetData("text/plain");
      var status;
      if listType == ActiveList {
        status := Active;
      } else {
        status := Finished;
      }
      store.MoveProject(projectId, status);
    }

    /** Removes the droppable class, whether or not it was there. */
    method DragLeaveHandler()
      modifies this`droppable
      ensures !droppable
    {
      droppable := false;
    }

    /** The listener callback: keep the relevant projects, then render them. */
    method OnProjects(projects: seq<Project>)
      modifies this`assignedProjects, this`items
      ensures assignedProjects == Relevant(listType, projects)
      ensures |items| == |assignedProjects|
      ensures forall k | 0 <= k < |items| ::
        fresh(items[k]) && items[k].hostId == ListElementId(listType) && items[k].Shows(assignedProjects[k])
    {
      assignedProjects := Relevant(listType, projects);
      RenderProjects();
    }

    /** Clears the `ul`, then adds one new item per assigned project, in order. */
    method RenderProjects()
      modifies this`items
      ensures |items| == |assignedProjects|
      ensures forall k | 0 <= k < |items| ::
        fresh(items[k]) && items[k].hostId == ListElementId(listType) && items[k].Shows(assignedProjects[k])
    {
      items := [];
      var i := 0;
      while i < |assignedProjects|
        invariant 0 <= i <= |assignedProjects|
        invariant |items| == i
        invariant forall k | 0 <= k < i ::
          fresh(items[k]) && items[k].hostId == ListElementId(listType) && items[k].Shows(assignedProjects[k])
      {
        var item := new ProjectItem(ListElementId(listType), assignedProjects[i]);
        items := items + [item];
        i := i + 1;
      }
    }
  }
}
