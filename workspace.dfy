/**
 * Workspaces: `Workspace` in electron-tracker/src/shared/Workspace.js, a named, coloured group
 * of projects and tasks. Its creation time is kept as the ISO text it was written as.
 */
module Workspaces {
  import opened Wrappers
  import opened Timestamps

  /** The colour a workspace gets when none is given. */
  const DefaultColor: string := "#81a1c1"

  datatype Workspace = Workspace(id: string, name: string, color: string, createdAt: string, isDefault: bool)

  /**
   * `new Workspace(name, color)`, with the generated id and the clock passed in; `color` is
   * `None` when the argument is left out.
   */
  function NewWorkspace(id: string, name: string, color: Option<string>, now: Time): (w: Workspace)
    ensures w.id == id && w.name == name && w.createdAt == Format(now) && !w.isDefault
    ensures color.None? ==> w.color == DefaultColor
    ensures color.Some? ==> w.color == color.value
  {
    Workspace(id, name, color.GetOr(DefaultColor), Format(now), false)
  }

  /** A workspace record as parsed from the store; optional entries are `None` when missing. */
  datatype WorkspaceJson = WorkspaceJson(id: string, name: string, color: Option<string>, createdAt: string, isDefault: Option<bool>)

  /** `toJSON()`: exactly the five fields, each written. */
  function WorkspaceToJson(w: Workspace): WorkspaceJson {
    WorkspaceJson(w.id, w.name, Some(w.color), w.createdAt, Some(w.isDefault))
  }

  /**
   * `Workspace.fromJSON(data)`: a missing colour takes the constructor's default (an empty one
   * is kept, as a default parameter only replaces a missing argument), and a missing flag reads
   * as not the default workspace.
   */
  function WorkspaceFromJson(j: WorkspaceJson): Workspace {
    Workspace(j.id, j.name, j.color.GetOr(DefaultColor), j.createdAt, j.isDefault.GetOr(false))
  }

  /** Writing a workspace and reading it back gives the same workspace. */
  lemma WorkspaceRoundTrip(w: Workspace)
    ensures WorkspaceFromJson(WorkspaceToJson(w)) == w
  {
  }

  /** A record that holds every entry is written back as it was read. */
  lemma WorkspaceRecordRoundTrip(j: WorkspaceJson)
    requires j.color.Some? && j.isDefault.Some?
    ensures WorkspaceToJson(WorkspaceFromJson(j)) == j
  {
  }

  /**
   * A record without colour or flag reads as a new workspace would be: default colour, not the
   * default workspace; and a record reads as the default workspace only when it says so.
   */
  lemma WorkspaceDefaults(j: WorkspaceJson)
    ensures j.color.None? ==> WorkspaceFromJson(j).color == DefaultColor
    ensures WorkspaceFromJson(j).isDefault <==> j.isDefault == Some(true)
  {
  }
}
