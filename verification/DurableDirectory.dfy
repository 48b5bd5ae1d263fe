/**
 A directory of write-once records on a disk that can lose unsynced entries.

 `writeExclusive` writes a temporary file, links it to its final name (the link
 fails when the name exists and is visible at once) and then syncs the parent
 directory (which makes every visible entry durable).  Either half may fail,
 and a machine crash may drop any entry that was never covered by a sync.
 */
module DurableDirectory {

  /** How one `writeExclusive` goes: nothing fails, something fails before the
      link, or the link succeeds and the directory sync fails. */
  datatype Fault = NoFault | FailsBeforeLink | FailsAfterLink

  datatype WriteResult = Written | AlreadyExists | IoFailed

  /** `entries` is what a reader sees; `durable` are the names a crash cannot
      drop; `pending` counts leftover temporary files. */
  datatype Directory<!K, +R> = Directory(entries: map<K, R>, durable: set<K>, pending: nat)
  {
    ghost predicate Valid() {
      durable <= entries.Keys
    }
  }

  /** The directory and the result of linking and syncing one record. */
  function WriteExclusive<K, R>(d: Directory<K, R>, name: K, record: R, fault: Fault)
    : (r: (Directory<K, R>, WriteResult))
    requires d.Valid()
    ensures r.0.Valid()
    // write-once: whatever was visible or durable is unchanged
    ensures forall k :: k in d.entries ==> k in r.0.entries && r.0.entries[k] == d.entries[k]
    ensures d.durable <= r.0.durable
    ensures r.0.pending == d.pending
    // only this name can appear, and only with this record
    ensures forall k :: k in r.0.entries && k !in d.entries ==> k == name && r.0.entries[k] == record
    // success is exactly "this call created the name and everything is durable"
    ensures r.1 == Written <==>
              name !in d.entries && name in r.0.entries && r.0.durable == r.0.entries.Keys && fault == NoFault
    ensures name in d.entries ==> r.0 == d
  {
    match fault
    case FailsBeforeLink => (d, IoFailed)
    case FailsAfterLink =>
      if name in d.entries then (d, AlreadyExists)
      else (d.(entries := d.entries[name := record]), IoFailed)
    case NoFault =>
      if name in d.entries then (d, AlreadyExists)
      else
        var entries := d.entries[name := record];
        (Directory(entries, entries.Keys, d.pending), Written)
  }

  /** A crash keeps a set of entries that includes all durable ones; what is
      found after the restart is on the disk, so it is durable.  A write that
      was interrupted leaves its temporary file behind. */
  ghost predicate CrashMayKeep<K, R>(d: Directory<K, R>, kept: set<K>) {
    d.durable <= kept <= d.entries.Keys
  }

  function AfterCrash<K, R>(d: Directory<K, R>, kept: set<K>, leftover: nat): (r: Directory<K, R>)
    requires d.Valid()
    requires CrashMayKeep(d, kept)
    ensures r.Valid()
    ensures r.entries.Keys == kept == r.durable
    ensures forall k :: k in r.entries ==> k in d.entries && r.entries[k] == d.entries[k]
    ensures forall k :: k in d.durable ==> k in r.entries && r.entries[k] == d.entries[k]
  {
    Directory(map k | k in kept :: d.entries[k], kept, d.pending + leftover)
  }
}
