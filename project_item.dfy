/**
 * One rendered project and drag source (src/components/project-item.ts,
 * repeated in src/app.ts:179-221).
 */
module ProjectItemView {
  import opened JsText
  import opened ProjectModel
  import opened DragDrop

  /** The `persons` getter: "1 Person" for one, "<n> People" for any other count. */
  function Persons(numberOfPeople: int): string
  {
    if numberOfPeople == 1 then "1 Person" else IntToString(numberOfPeople) + " People"
  }

  /** The singular label is used for a count of one and for no other count. */
  lemma PersonsSingularIffOne(n: int)
    ensures Persons(n) == "1 Person" <==> n == 1
  {
  }

  /**
   * Any other count gets the plural label, whose text before " People" is the
   * canonical decimal spelling of the count (no leading zero, a minus sign
   * exactly for negatives) and reads back as the count itself.
   */
  lemma PersonsPluralReadsBack(n: int)
    requires n != 1
    ensures var r := Persons(n);
            |r| > 7 && r[|r| - 7..] == " People" && ToNumber(r[..|r| - 7]) == Int(n)
            && IsCanonicalInt(r[..|r| - 7]) && (r[0] == '-' <==> n < 0)
  {
    var r := Persons(n);
    assert r[..|r| - 7] == IntToString(n);
    ToNumberOfIntToString(n);
  }

  /** The list item for one project. Its fields never change after construction. */
  class ProjectItem {
    const project: Project
    const hostId: string
    /** The element id: the project's id. */
    const elementId: string
    /** The `h2` text: the title. */
    const heading: string
    /** The `h3` text: the people label followed by " assigned". */
    const subtitle: string
    /** The `p` text: the description. */
    const body: string

    /** What the item shows for `p`. */
    predicate Shows(p: Project) {
      project == p && elementId == p.id && heading == p.title
      && subtitle == Persons(p.numberOfPeople) + " assigned" && body == p.description
    }

    /** Builds the element with the project's id and fills in its three texts. */
    constructor (hostId: string, project: Project)
      ensures this.hostId == hostId && Shows(project)
    {
      this.hostId := hostId;
      this.project := project;
      elementId := project.id;
      heading := project.title;
      subtitle := Persons(project.numberOfPeople) + " assigned";
      body := project.description;
    }

    /** Puts the project's id in the drag data as "text/plain" and allows a move. */
    method DragStartHandler(dataTransfer: DataTransfer)
      modifies dataTransfer
      ensures dataTransfer.items == Without(old(dataTransfer.items), "text/plain") + [DragItem("text/plain", project.id)]
      ensures dataTransfer.GetData("text/plain") == project.id
      ensures dataTransfer.effectAllowed == "move"
    {
      dataTransfer.SetData("text/plain", project.id);
      dataTransfer.effectAllowed := "move";
    }
  }
}
