/** Monitoring granularity: the kind of workload a flow is attributed to
    (process, container or pod) and the record field that names it. */
module Granularity {
  import opened Wrappers

  datatype Granularity = Process | Container | Pod

  /** The command-line spelling of each granularity. */
  function Name(g: Granularity): string {
    match g
    case Process => "process"
    case Container => "container"
    case Pod => "pod"
  }

  /** Resolves the optional `--granularity` argument (None when the flag is
      absent). Only the exact spellings "container" and "pod" select those
      granularities; anything else, the absent flag included, falls back to
      Process. */
  function Resolve(arg: Option<string>): (g: Granularity)
    ensures g == Container <==> arg == Some("container")
    ensures g == Pod <==> arg == Some("pod")
    ensures g == Process <==> arg != Some("container") && arg != Some("pod")
  {
    if arg == Some("container") then Container
    else if arg == Some("pod") then Pod
    else Process
  }

  /** The record field holding the actor's identity at granularity `g`.
      It is never one of the two fields the tracker reads for every event,
      and it can be a record key (it holds no ':'). */
  function IdentityField(g: Granularity): (field: string)
    ensures field != "evt_io_dir" && field != "fd_name"
    ensures ':' !in field
  {
    match g
    case Process => "proc_name"
    case Container => "container_id"
    case Pod => "k8s_pod_name"
  }

  /** Each granularity reads its own field: no two granularities share one. */
  lemma IdentityFieldInjective(g1: Granularity, g2: Granularity)
    ensures IdentityField(g1) == IdentityField(g2) <==> g1 == g2
  {
  }

  /** Spelling a granularity on the command line selects it again, and no
      argument at all selects Process. */
  lemma ResolveName(g: Granularity)
    ensures Resolve(Some(Name(g))) == g
    ensures Resolve(None) == Process
  {
  }
}
