/**
 * The rescan decision for a file-system event (cardinal-sdk/src/event.rs).
 * The event flag's scan type comes from `EventFlag::scan_type`, which is not
 * part of this model, so it is an input here; paths compare as plain values.
 */
module Events {

  /** What an event asks of the index, as `EventFlag::scan_type` classifies it. */
  datatype ScanType = Nop | SingleNode | Folder | ReScan

  type Path = string

  /** One event from the stream: its path and its id (the flag is summarised by the scan type). */
  datatype FsEvent = FsEvent(path: Path, id: nat)

  /** `FsEvent::should_rescan`: a full rescan is needed for a rescan event, or for a node or folder event on the root itself. */
  function ShouldRescan(event: FsEvent, scanType: ScanType, root: Path): (rescan: bool)
    ensures event.path != root ==> (rescan <==> scanType == ReScan)
    ensures event.path == root ==> (rescan <==> scanType != Nop)
  {
    match scanType
    case ReScan => true
    case SingleNode | Folder => event.path == root
    case Nop => false
  }

  /** The decision is exactly "rescan, or a node/folder event at the root"; Nop never rescans. */
  lemma ShouldRescanCases(event: FsEvent, scanType: ScanType, root: Path)
    ensures scanType == ReScan ==> ShouldRescan(event, scanType, root)
    ensures scanType == SingleNode || scanType == Folder ==> (ShouldRescan(event, scanType, root) <==> event.path == root)
    ensures scanType == Nop ==> !ShouldRescan(event, scanType, root)
  {
  }

  /** Only the scan type and whether the path is the root matter; the event id is ignored. */
  lemma ShouldRescanIgnoresId(a: FsEvent, b: FsEvent, scanType: ScanType, root: Path)
    requires (a.path == root) == (b.path == root)
    ensures ShouldRescan(a, scanType, root) == ShouldRescan(b, scanType, root)
  {
  }

  /** The cases of the unit test, with the scan types their flags stand for. */
  lemma ShouldRescanTestCases()
    ensures ShouldRescan(FsEvent("/root/file", 1), ReScan, "/root")
    ensures ShouldRescan(FsEvent("/root", 1), SingleNode, "/root")
    ensures !ShouldRescan(FsEvent("/root/sub/file", 1), SingleNode, "/root")
    ensures !ShouldRescan(FsEvent("/root/file", 1), Nop, "/root")
  {
  }
}
