/**
 * The page as src/app.ts:388-391 wires it (one store, a form, an active and
 * a finished list) driven through a few complete interactions, using only
 * the contracts of the components.
 */
module Scenarios {
  import opened Wrappers
  import opened ProjectModel
  import opened ProjectStore
  import opened DragDrop
  import opened ProjectItemView
  import opened ProjectListView
  import opened ProjectInputForm

  /** Both store accesses see the same store. */
  method SingleStore() {
    var slot := new InstanceSlot();
    var first := slot.GetInstance();
    var second := slot.GetInstance();
    assert first == second;
  }

  /**
   * Two lists, then a new project: both lists are notified and it shows in
   * the active list only. A drop on the finished list moves it there and
   * both lists are notified again; a second identical drop notifies nobody.
   */
  method DropMovesBetweenLists() {
    var store := new ProjectState();
    var active := new ProjectList(ActiveList, store);
    var finished := new ProjectList(FinishedList, store);
    assert store.log == [] && |store.listeners| == 2;
    store.AddProject("p1", "Build API", "Design and build", 3);
    var p := Project("p1", "Build API", "Design and build", 3, Active);
    assert store.projects == [p];
    ListViewAfterRound(ActiveList, [], 2, [p], 0);
    ListViewAfterRound(FinishedList, [], 2, [p], 1);
    assert [] + Round(2, [p]) == store.log;
    assert Relevant(ActiveList, [p]) == [p] && Relevant(FinishedList, [p]) == [] by {
      assert [p][1..] == [];
    }
    assert ListView(ActiveList, store.log, active.index) == [p];
    assert ListView(FinishedList, store.log, finished.index) == [];

    var dataTransfer := new DataTransfer([DragItem("text/plain", "p1")], "move");
    var logBefore := store.log;
    finished.DropHandler(dataTransfer, store);
    var q := p.(status := Finished);
    assert store.projects == [q];
    ListViewAfterRound(ActiveList, logBefore, 2, [q], 0);
    ListViewAfterRound(FinishedList, logBefore, 2, [q], 1);
    assert logBefore + Round(2, [q]) == store.log;
    assert Relevant(ActiveList, [q]) == [] && Relevant(FinishedList, [q]) == [q] by {
      assert [q][1..] == [];
    }
    assert ListView(ActiveList, store.log, active.index) == [];
    assert ListView(FinishedList, store.log, finished.index) == [q];

    var logAfter := store.log;
    finished.DropHandler(dataTransfer, store);
    assert store.log == logAfter;
  }

  /** An empty people field reads as 0 and fails the form; nothing is added. */
  method RejectedSubmission() {
    var store := new ProjectState();
    var form := new ProjectInput();
    form.titleValue, form.descriptionValue := "Build API", "Design and build";
    form.SubmitHandler("p1", store);
    assert store.projects == [] && store.log == [];
    assert form.titleValue == "Build API";
  }

  /**
   * The handshake: a drag started on an item is accepted by a list and its
   * drop reads back the item's id. A payload of another type is refused.
   */
  method DragHandshake(p: Project) {
    var store := new ProjectState();
    var list := new ProjectList(FinishedList, store);
    var item := new ProjectItem(ListElementId(ActiveList), p);
    var dataTransfer := new DataTransfer([], "uninitialized");
    item.DragStartHandler(dataTransfer);
    assert dataTransfer.Types() == ["text/plain"];
    var accepted := list.DragOverHandler(dataTransfer);
    assert accepted && list.droppable;
    assert dataTransfer.GetData("text/plain") == p.id;
    list.DragLeaveHandler();
    assert !list.droppable;

    var image := new DataTransfer([DragItem("image/png", "pixels")], "copy");
    assert image.Types() == ["image/png"];
    accepted := list.DragOverHandler(image);
    assert !accepted && !list.droppable;
  }
}
