/**
 * The data-acquisition framework's identifiers as the time tool dispatches
 * on them: a type identifier says which payload a container holds and in
 * which version, a source says which detector it comes from.
 */
module Pds {
  /**
   * The type ids the time tool looks at. Container is the framework's
   * nested-container id (Id_Xtc); every id not named here is Other.
   */
  datatype Kind =
    | Container
    | CameraFrame
    | VimbaFrame
    | EvrData
    | IpmFex
    | Opal1kConfig
    | AlviumConfig
    | TimeToolConfig
    | TimeToolData
    | Other(code: nat)

  datatype TypeId = TypeId(id: Kind, version: nat)

  /** A source address: its level and its physical word. */
  datatype Src = Src(level: nat, phy: nat)
}
