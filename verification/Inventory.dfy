/** A VM as a run recorded it, and what two records of it say changed. */
module Inventory {
  import opened Common
  import opened Strings

  const SECOND := 1_000_000_000
  const IMPORTED_PREFIX := "import:"

  /** Creation times are nanoseconds. */
  datatype Snapshot = Snapshot(id: string, name: string, description: string, createTime: int, current: bool) {
    predicate Imported() { IMPORTED_PREFIX <= id }
  }

  /** config stands for the recorded configuration that is compared field by field elsewhere, and
      runtime for what is compared only on request. */
  datatype VM = VM(
    id: string, name: string, instanceUUID: string, biosUUID: string,
    host: string, cluster: string, folder: string, datastores: seq<string>,
    configurationAvailable: bool, cpu: int, memoryMB: int, guestOS: string, annotation: string,
    config: string, runtime: string)

  datatype Observation = Observation(vcenterID: string, context: string, vm: VM)

  datatype StoredVM = StoredVM(observation: Observation, snapshots: seq<Snapshot>)

  predicate PlacementDiffers(a: string, b: string) { a != "" && b != "" && a != b }

  predicate Moved(a: VM, b: VM, avc: string, bvc: string) {
    || avc != bvc
    || PlacementDiffers(a.host, b.host) || PlacementDiffers(a.cluster, b.cluster) || PlacementDiffers(a.folder, b.folder)
    || (|a.datastores| > 0 && |b.datastores| > 0 && !EqualStrings(a.datastores, b.datastores))
  }

  predicate ConfigUnknown(vm: VM) {
    !vm.configurationAvailable && vm.cpu == 0 && vm.memoryMB == 0
  }

  function Change(name: string, before: string, after: string): seq<FieldChange> {
    if before != after then [FieldChange(name, before, after)] else []
  }

  /** The changes of the four fields an account may not be able to read. */
  function ConfigChanges(a: VM, b: VM): seq<FieldChange> {
    if ConfigUnknown(a) || ConfigUnknown(b) then []
    else
      Change("cpu", FormatInt(a.cpu), FormatInt(b.cpu))
      + Change("memory", FormatInt(a.memoryMB), FormatInt(b.memoryMB))
      + Change("guest_os", a.guestOS, b.guestOS)
      + Change("annotation", a.annotation, b.annotation)
  }

  function ChangedFields(a: VM, b: VM, runtime: bool): seq<FieldChange> {
    Change("name", a.name, b.name) + ConfigChanges(a, b) + Change("config", a.config, b.config)
    + if runtime then Change("runtime", a.runtime, b.runtime) else []
  }

  lemma NothingChanged(vm: VM, vc: string, runtime: bool)
    ensures ChangedFields(vm, vm, runtime) == [] && !Moved(vm, vm, vc, vc)
  {
  }
}
