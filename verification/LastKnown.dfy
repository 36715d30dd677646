/** What a VM's history remembers of the fields an observation could not always see. */
module LastKnown {
  import opened Common
  import opened Inventory

  datatype Known = Known(host: string, cluster: string, guestOS: string, annotation: string,
                         datastores: seq<string>, cpu: int, memoryMB: int, hasConfig: bool)

  const Nothing := Known("", "", "", "", [], 0, 0, false)

  function Learn(k: Known, vm: VM): Known {
    var place := k.(host := if vm.host != "" then vm.host else k.host,
                    cluster := if vm.cluster != "" then vm.cluster else k.cluster,
                    datastores := if |vm.datastores| > 0 then vm.datastores else k.datastores);
    if ConfigUnknown(vm) then place
    else place.(cpu := vm.cpu, memoryMB := vm.memoryMB, guestOS := vm.guestOS, annotation := vm.annotation, hasConfig := true)
  }

  /** The VM with what it could not see replaced by what is known; what was never seen stays
      unknown. */
  function Fill(k: Known, vm: VM): VM {
    var place := vm.(host := if vm.host == "" then k.host else vm.host,
                     cluster := if vm.cluster == "" then k.cluster else vm.cluster,
                     datastores := if |vm.datastores| == 0 then k.datastores else vm.datastores);
    if ConfigUnknown(vm) && k.hasConfig then
      place.(cpu := k.cpu, memoryMB := k.memoryMB, guestOS := k.guestOS, annotation := k.annotation)
    else place
  }

  class LastKnown {
    var host: string
    var cluster: string
    var guestOS: string
    var annotation: string
    var datastores: seq<string>
    var cpu: int
    var memoryMB: int
    var hasConfig: bool

    ghost function View(): Known
      reads this
    {
      Known(host, cluster, guestOS, annotation, datastores, cpu, memoryMB, hasConfig)
    }

    constructor ()
      ensures View() == Nothing
    {
      host, cluster, guestOS, annotation, datastores := "", "", "", "", [];
      cpu, memoryMB, hasConfig := 0, 0, false;
    }

    method LearnFrom(vm: VM)
      modifies this
      ensures View() == Learn(old(View()), vm)
    {
      if vm.host != "" {
        host := vm.host;
      }
      if vm.cluster != "" {
        cluster := vm.cluster;
      }
      if |vm.datastores| > 0 {
        datastores := vm.datastores;
      }
      if !ConfigUnknown(vm) {
        cpu, memoryMB, guestOS, annotation, hasConfig := vm.cpu, vm.memoryMB, vm.guestOS, vm.annotation, true;
      }
    }

    method Filled(vm: VM) returns (out: VM)
      ensures out == Fill(View(), vm)
    {
      out := vm;
      if vm.host == "" {
        out := out.(host := host);
      }
      if vm.cluster == "" {
        out := out.(cluster := cluster);
      }
      if |vm.datastores| == 0 {
        out := out.(datastores := datastores);
      }
      if ConfigUnknown(out) && hasConfig {
        out := out.(cpu := cpu, memoryMB := memoryMB, guestOS := guestOS, annotation := annotation);
      }
    }
  }

  // ----- What it knows after a history

  function KnownAfter(vms: seq<VM>): Known {
    if vms == [] then Nothing else Learn(KnownAfter(vms[..|vms| - 1]), vms[|vms| - 1])
  }

  datatype Config = Config(cpu: int, memoryMB: int, guestOS: string, annotation: string)

  function SeenHost(vm: VM): Option<string> { if vm.host != "" then Some(vm.host) else None }

  function SeenCluster(vm: VM): Option<string> { if vm.cluster != "" then Some(vm.cluster) else None }

  function SeenDatastores(vm: VM): Option<seq<string>> { if |vm.datastores| > 0 then Some(vm.datastores) else None }

  function SeenConfig(vm: VM): Option<Config> {
    if ConfigUnknown(vm) then None else Some(Config(vm.cpu, vm.memoryMB, vm.guestOS, vm.annotation))
  }

  /** The last value of a field any of the observations saw. */
  function Latest<V>(vms: seq<VM>, seen: VM -> Option<V>): Option<V> {
    if vms == [] then None
    else
      var last := seen(vms[|vms| - 1]);
      if last.Some? then last else Latest(vms[..|vms| - 1], seen)
  }

  function OrElse<V>(o: Option<V>, v: V): V { if o.Some? then o.value else v }

  lemma {:induction false} KnowsThePlacement(vms: seq<VM>)
    ensures KnownAfter(vms).host == OrElse(Latest(vms, SeenHost), "")
    ensures KnownAfter(vms).cluster == OrElse(Latest(vms, SeenCluster), "")
    ensures KnownAfter(vms).datastores == OrElse(Latest(vms, SeenDatastores), [])
    ensures Latest(vms, SeenHost).Some? ==> Latest(vms, SeenHost).value != ""
    ensures Latest(vms, SeenCluster).Some? ==> Latest(vms, SeenCluster).value != ""
    ensures Latest(vms, SeenDatastores).Some? ==> |Latest(vms, SeenDatastores).value| > 0
  {
    if vms != [] {
      KnowsThePlacement(vms[..|vms| - 1]);
    }
  }

  function KnownConfig(k: Known): Option<Config> {
    if k.hasConfig then Some(Config(k.cpu, k.memoryMB, k.guestOS, k.annotation)) else None
  }

  lemma {:induction false} KnowsTheConfig(vms: seq<VM>)
    ensures KnownConfig(KnownAfter(vms)) == Latest(vms, SeenConfig)
  {
    if vms != [] {
      KnowsTheConfig(vms[..|vms| - 1]);
    }
  }

  /** Filling in the last of the observations gives what was last seen of every field. */
  lemma FilledIsTheLatest(vms: seq<VM>)
    requires vms != []
    ensures var f := Fill(KnownAfter(vms), vms[|vms| - 1]);
      && f.host == OrElse(Latest(vms, SeenHost), "")
      && f.cluster == OrElse(Latest(vms, SeenCluster), "")
      && f.datastores == OrElse(Latest(vms, SeenDatastores), [])
      && (Latest(vms, SeenConfig).Some? ==>
            Config(f.cpu, f.memoryMB, f.guestOS, f.annotation) == Latest(vms, SeenConfig).value)
      && (Latest(vms, SeenConfig).None? ==> ConfigUnknown(f))
      && (ConfigUnknown(f) <==> ConfigUnknown(vms[|vms| - 1]) && f.cpu == 0 && f.memoryMB == 0)
  {
    KnowsThePlacement(vms);
    KnowsTheConfig(vms);
    NeverSeenMeansHidden(vms);
  }

  lemma NeverSeenMeansHidden(vms: seq<VM>)
    requires vms != []
    ensures Latest(vms, SeenConfig).None? ==> ConfigUnknown(vms[|vms| - 1])
    ensures !ConfigUnknown(vms[|vms| - 1]) ==> Latest(vms, SeenConfig) == SeenConfig(vms[|vms| - 1])
  {
  }

  // ----- Changes along a history

  type Pairs = seq<(string, string)>

  /** The changes between neighbours in a list of values. */
  function Diffs<V>(values: seq<V>, show: V -> string, differ: (V, V) -> bool): Pairs {
    if |values| < 2 then []
    else
      var n := |values| - 1;
      Diffs(values[..n], show, differ) + if differ(values[n - 1], values[n]) then [(show(values[n - 1]), show(values[n]))] else []
  }

  /** The values that were seen, in order: the history with the hidden ones removed. */
  function Visible<V>(vms: seq<VM>, seen: VM -> Option<V>): seq<V> {
    if vms == [] then []
    else
      var n := |vms| - 1;
      Visible(vms[..n], seen) + if seen(vms[n]).Some? then [seen(vms[n]).value] else []
  }

  function Step<V>(before: Option<V>, after: Option<V>, show: V -> string, differ: (V, V) -> bool): Pairs {
    if before.Some? && after.Some? && differ(before.value, after.value) then [(show(before.value), show(after.value))] else []
  }

  /** Each observation compared with the last one that saw the field. */
  function Steps<V>(vms: seq<VM>, seen: VM -> Option<V>, show: V -> string, differ: (V, V) -> bool): Pairs {
    if vms == [] then []
    else
      var n := |vms| - 1;
      Steps(vms[..n], seen, show, differ) + Step(Latest(vms[..n], seen), seen(vms[n]), show, differ)
  }

  /** Comparing with the last observation that saw a field is comparing neighbours once the hidden
      ones are gone. */
  lemma {:induction false} StepsIgnoreTheHidden<V>(vms: seq<VM>, seen: VM -> Option<V>, show: V -> string, differ: (V, V) -> bool)
    ensures Steps(vms, seen, show, differ) == Diffs(Visible(vms, seen), show, differ)
    ensures Latest(vms, seen) == if Visible(vms, seen) == [] then None else Some(Visible(vms, seen)[|Visible(vms, seen)| - 1])
  {
    if vms != [] {
      var n := |vms| - 1;
      StepsIgnoreTheHidden(vms[..n], seen, show, differ);
      var before, now := Visible(vms[..n], seen), seen(vms[n]);
      if now.Some? {
        assert (before + [now.value])[..|before|] == before;
      } else {
        assert Visible(vms, seen) == before;
      }
    }
  }
}
