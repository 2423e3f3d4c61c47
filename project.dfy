/**
 * The entity of the tracker: a project with a two-valued status
 * (src/model/project.ts, repeated in src/app.ts).
 */
module ProjectModel {
  /** The closed status enumeration: a project is either active or finished. */
  datatype ProjectStatus = Active | Finished

  /**
   * A project record. The constructor stores each argument in the field of the
   * same name and does nothing else. `numberOfPeople` is an integer here; the
   * source's floating-point `number` is not modelled.
   */
  datatype Project = Project(
    id: string,
    title: string,
    description: string,
    numberOfPeople: int,
    status: ProjectStatus)
}
