/** The parts of a module's specification that several components read. */
module ModuleSpecs {
  import opened Common

  datatype WorkspaceRef = WorkspaceRef(namespace: string, name: string)

  datatype ExistingRelease = ExistingRelease(name: string, namespace: string)

  /** Names of the objects whose contents a fork copies. */
  datatype Migration = Migration(pvcs: seq<string>, configMaps: seq<string>, secrets: seq<string>)

  /** `rest` stands for the fields no modelled rule looks at (chart, values, cleanup). */
  datatype HelmSpec = HelmSpec(
    existing: Option<ExistingRelease>, releaseName: Option<string>, namespace: string,
    outputs: seq<string>, migration: Migration, rest: string)

  datatype CustomSpec = CustomSpec(image: string, rest: string)

  datatype ModuleSpec = ModuleSpec(
    helm: Option<HelmSpec>, custom: Option<CustomSpec>, workspace: WorkspaceRef,
    config: Option<string>, hibernated: bool)
}
