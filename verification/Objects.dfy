/**
 API objects shared by the node-side protocol, the device-link cache and the deletion protocol.
 */
module Objects {

  datatype Option<+T> = None | Some(value: T)

  // A link under the storage root: `<root>/<sc>/<name>`, one directory per storage class.
  datatype LinkPath = LinkPath(sc: string, name: string)

  function TmpPath(l: LinkPath): (t: LinkPath)
    ensures t != l
  {
    assert |l.name + ".tmp"| != |l.name|;
    l.(name := l.name + ".tmp")
  }

  // ----- LocalVolumeDeviceLink -----

  datatype Policy = NoPolicy | CurrentLinkTarget | PreferredLinkTarget

  datatype Condition = Condition(kind: string, active: bool, reason: string, message: string, time: int)

  datatype LvdlStatus = LvdlStatus(
    current: string,
    preferred: string,
    valid: seq<string>,
    pvPath: Option<LinkPath>,
    fsUuid: string,
    conditions: seq<Condition>)

  const EMPTY_STATUS := LvdlStatus("", "", [], None, "", [])

  // `version` is the resource version: a write based on an older version is refused.
  datatype Lvdl = Lvdl(name: string, pvName: string, node: string, policy: Policy, status: LvdlStatus, version: nat)

  // ----- PersistentVolume -----

  datatype Phase = Pending | Available | Bound | Released

  const SYMLINK_FINALIZER := "storage.openshift.com/lso-symlink-deleter"
  const PROTECTION_FINALIZER := "storage.openshift.com/local-volume-protection"

  datatype Pv = Pv(
    node: string,
    path: Option<LinkPath>,
    phase: Phase,
    labels: map<string, string>,
    retain: bool,
    claimed: bool,
    finalizers: seq<string>,
    deleting: bool)

  predicate HasLabels(pv: Pv, labels: map<string, string>) {
    forall k :: k in labels ==> k in pv.labels && pv.labels[k] == labels[k]
  }
}
