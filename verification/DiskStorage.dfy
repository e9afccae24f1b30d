/** The daemon's one-document store on disk, and the rule that only a persisted change is answered with 200. */
module DiskStorage {
  import opened Sequences

  const BROKER_KEY := "revu.broker.v1"

  /** What a serialized document embodies: the changes made to it since it was seeded. */
  type Document = seq<nat>

  /**
   * A text that holds a document: whether it parses as JSON, the version it names if any, whether every core
   * field is there, and the changes it embodies for whoever can read it.
   */
  datatype Contents = Contents(parses: bool, version: Option<real>, core: bool, changes: Document)

  const STORE_VERSION := 4.0

  /** The store takes up, and migrates, a sound document of a version it knows. */
  predicate Accepted(c: Contents)
  {
    c.parses && c.core && c.version.Some? && 1.0 <= c.version.value <= STORE_VERSION
  }

  /** What the store writes. */
  function Written(changes: Document): (c: Contents)
    ensures Accepted(c)
  {
    Contents(true, Some(STORE_VERSION), true, changes)
  }

  /** What an interrupted write leaves behind. */
  function Interrupted(c: Contents): Contents
  {
    c.(parses := false)
  }

  /** What the file system answers about a present file: that it is not there, an error, or its contents. */
  datatype Sight = Hidden | Unreadable | Readable

  datatype Read = Absent | Present(value: Contents) | Failing

  function Seen(doc: Option<Contents>, sight: Sight): Read
  {
    if doc.None? || sight.Hidden? then Absent else if sight.Unreadable? then Failing else Present(doc.value)
  }

  /** How one write attempt goes. */
  datatype Fault = NoFault | WriteFails | RenameFails

  /** Disk-backed storage: one key lives in a file, any other key in memory. */
  class Storage {
    var doc: Option<Contents>
    var sight: Sight
    var temp: Option<Contents>       // this process's temporary sibling of the file
    var extras: map<string, Contents>

    constructor (doc: Option<Contents>, sight: Sight)
      ensures this.doc == doc && this.sight == sight && temp == None && extras == map[]
    {
      this.doc, this.sight, temp, extras := doc, sight, None, map[];
    }

    /** A file that is seen but cannot be read is an error of its own, never an absent document. */
    method GetItem(key: string) returns (r: Read)
      ensures key != BROKER_KEY ==> r == if key in extras then Present(extras[key]) else Absent
      ensures key == BROKER_KEY ==> r == Seen(doc, sight)
      ensures key == BROKER_KEY ==> (r.Failing? <==> doc.Some? && sight.Unreadable?)
      ensures key == BROKER_KEY ==> (r.Present? <==> doc.Some? && sight.Readable?)
      ensures key == BROKER_KEY && r.Present? ==> r.value == doc.value
    {
      if key != BROKER_KEY {
        return if key in extras then Present(extras[key]) else Absent;
      }
      if doc.None? || sight.Hidden? {
        return Absent;
      }
      if sight.Unreadable? {
        return Failing;
      }
      return Present(doc.value);
    }

    /** Writes beside the file, then renames over it: the file holds the old bytes or the new ones. */
    method SetItem(key: string, value: Contents, fault: Fault) returns (ok: bool)
      modifies this`doc, this`temp, this`extras
      ensures key != BROKER_KEY ==> ok && extras == old(extras)[key := value] && doc == old(doc) && temp == old(temp)
      ensures key == BROKER_KEY ==> extras == old(extras) && (ok <==> fault == NoFault)
      ensures key == BROKER_KEY ==> doc == if ok then Some(value) else old(doc)
    {
      if key != BROKER_KEY {
        extras := extras[key := value];
        return true;
      }
      if fault == WriteFails {
        temp := Some(Interrupted(value));
        return false;
      }
      temp := Some(value);
      if fault == RenameFails {
        return false;
      }
      doc, temp := temp, None;
      return true;
    }

    method RemoveItem(key: string, unlinkFails: bool)
      modifies this`doc, this`extras
      ensures key != BROKER_KEY ==> extras == old(extras) - {key} && doc == old(doc)
      ensures key == BROKER_KEY ==> extras == old(extras)
      ensures key == BROKER_KEY ==> doc == if unlinkFails || sight.Hidden? then old(doc) else None
    {
      if key != BROKER_KEY {
        extras := extras - {key};
        return;
      }
      if doc.Some? && !sight.Hidden? && !unlinkFails {
        doc := None;
      }
    }
  }

  // ----- the router around it

  /** What the adapter does with one mutating request: apply it and return, or apply part of it and throw. */
  datatype Outcome = Returns | ThrowsAfterApplying | ThrowsBeforeApplying

  /** The answers a mutating request can get. */
  datatype Status = Ok200 | PersistFailed500 | AdapterError

  function AfterFlush(doc: Option<Contents>, mem: Document, fault: Fault): Option<Contents>
  {
    if fault == NoFault then Some(Written(mem)) else doc
  }

  /** What one mutating request leaves behind, and what it is answered with. */
  datatype Handled = Handled(mem: Document, doc: Option<Contents>, status: Status)

  function Handling(mem: Document, doc: Option<Contents>, change: nat, outcome: Outcome, fault: Fault,
                    lateFault: Fault): Handled
  {
    var applied := if outcome == ThrowsBeforeApplying then mem else mem + [change];
    if outcome != Returns then Handled(applied, AfterFlush(doc, applied, lateFault), AdapterError)
    else if fault == NoFault then Handled(applied, Some(Written(applied)), Ok200)
    else Handled(applied, AfterFlush(doc, applied, lateFault), PersistFailed500)
  }

  class Daemon {
    var mem: Document
    const storage: Storage

    constructor (storage: Storage, mem: Document)
      ensures this.storage == storage && this.mem == mem
    {
      this.storage, this.mem := storage, mem;
    }

    /** Propagates a write failure. */
    method FlushOrThrow(fault: Fault) returns (ok: bool)
      modifies storage`doc, storage`temp, storage`extras
      ensures ok <==> fault == NoFault
      ensures storage.doc == AfterFlush(old(storage.doc), mem, fault)
    {
      ok := storage.SetItem(BROKER_KEY, Written(mem), fault);
    }

    /** Swallows a write failure. */
    method Flush(fault: Fault)
      modifies storage`doc, storage`temp, storage`extras
      ensures storage.doc == AfterFlush(old(storage.doc), mem, fault)
    {
      var _ := storage.SetItem(BROKER_KEY, Written(mem), fault);
    }

    /**
     * Applies a change, persists, and only then answers. On any throw the state is flushed once more,
     * quietly, so what was applied may still reach the disk; a change is never taken back.
     */
    method HandleMutating(change: nat, outcome: Outcome, fault: Fault, lateFault: Fault) returns (status: Status)
      modifies this`mem, storage`doc, storage`temp, storage`extras
      ensures Handled(mem, storage.doc, status)
           == Handling(old(mem), old(storage.doc), change, outcome, fault, lateFault)
      ensures status == Ok200 <==> outcome == Returns && fault == NoFault
      ensures status == Ok200 ==> storage.doc == Some(Written(mem)) && change in mem
      ensures mem == if outcome == ThrowsBeforeApplying then old(mem) else old(mem) + [change]
      ensures status == PersistFailed500 <==> outcome == Returns && fault != NoFault
      ensures status != Ok200 ==> storage.doc == if lateFault == NoFault then Some(Written(mem)) else old(storage.doc)
      ensures old(mem) <= mem
    {
      if outcome != ThrowsBeforeApplying {
        mem := mem + [change];
      }
      if outcome == Returns {
        var ok := FlushOrThrow(fault);
        if ok {
          return Ok200;
        }
      }
      Flush(lateFault);
      return if outcome == Returns then PersistFailed500 else AdapterError;
    }
  }

  /** Whether the daemon may start over this file. */
  predicate MayBoot(doc: Option<Contents>, sight: Sight)
  {
    !Seen(doc, sight).Failing?
  }

  /** What the store takes into memory from this file; seed state embodies no change yet. */
  function Loaded(doc: Option<Contents>, sight: Sight): Document
  {
    var r := Seen(doc, sight);
    if r.Present? && Accepted(r.value) then r.value.changes else []
  }

  /** The boot guard: a document that is seen but unreadable stops the daemon before its store can load. */
  method InstallDiskStorage(storage: Storage) returns (proceed: bool)
    ensures proceed <==> MayBoot(storage.doc, storage.sight)
    ensures !proceed <==> storage.doc.Some? && storage.sight.Unreadable?
  {
    var r := storage.GetItem(BROKER_KEY);
    proceed := !r.Failing?;
  }

  /** Migrates a document the store can trust; None for any other. */
  function MigrateStoreDocument(c: Contents): Option<Document>
  {
    if !c.parses || !c.core || c.version.None? then None
    else if c.version.value < 1.0 || c.version.value > STORE_VERSION then None
    else Some(c.changes)
  }

  /** The store's own loader: seed state on a missing, unreadable, corrupt or unknown-version document. */
  method Load(storage: Storage) returns (mem: Document)
    ensures mem == Loaded(storage.doc, storage.sight)
    ensures var taken :=
        && storage.doc.Some? && storage.sight.Readable? && storage.doc.value.parses && storage.doc.value.core
        && storage.doc.value.version.Some? && 1.0 <= storage.doc.value.version.value <= 4.0;
      mem == if taken then storage.doc.value.changes else []
  {
    var r := storage.GetItem(BROKER_KEY);
    if !r.Present? {
      return [];
    }
    var migrated := MigrateStoreDocument(r.value);
    return if migrated.Some? then migrated.value else [];
  }
}
