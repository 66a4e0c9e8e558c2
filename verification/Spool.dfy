/** The one-slot crash-prone store that holds the unacknowledged traffic report. */
module Spool {
  import opened Wrappers
  import opened Traffic

  type BatchId = nat

  /** A report; None is the empty batch ID. Only ID and traffic survive unchanged across replays. */
  datatype Batch = Batch(id: Option<BatchId>, traffic: TrafficMap)

  /**
   `slot` is the file as the running process sees it. `afterCrash` holds every
   content that a machine crash may leave behind: directory changes since the
   last directory sync may or may not have reached the disk.
   */
  datatype Disk = Disk(slot: Option<Batch>, afterCrash: set<Option<Batch>>)

  const EMPTY_DISK := Disk(None, {None})

  datatype SaveOutcome =
    | NotWritten                // the temporary file could not be created, written or synced
    | NotRenamed                // it could not be moved into place
    | NotSynced(removed: bool)  // it was moved into place, but syncing the directory failed
    | Saved

  datatype ClearOutcome = NotRemoved | RemovedNotSynced | Cleared

  function SaveSpec(d: Disk, b: Batch, io: SaveOutcome): Disk {
    match io
    case NotWritten => d
    case NotRenamed => d
    case NotSynced(true) => Disk(None, d.afterCrash + {Some(b), None})
    case NotSynced(false) => Disk(Some(b), d.afterCrash + {Some(b)})
    case Saved => Disk(Some(b), {Some(b)})
  }

  function ClearSpec(d: Disk, io: ClearOutcome): Disk {
    match io
    case NotRemoved => d
    case RemovedNotSynced => Disk(None, d.afterCrash + {None})
    case Cleared => EMPTY_DISK
  }

  datatype LoadResult = Loaded(pending: Option<Batch>) | InvalidSlot

  predicate ValidSlot(slot: Option<Batch>) {
    slot.Some? ==> slot.value.id.Some? && slot.value.traffic != map[]
  }

  class BatchSpool {
    var slot: Option<Batch>
    ghost var afterCrash: set<Option<Batch>>

    ghost function Contents(): Disk
      reads this
    {
      Disk(slot, afterCrash)
    }

    /** The slot as a restarted process finds it. */
    constructor (slot: Option<Batch>)
      ensures Contents() == Disk(slot, {slot})
    {
      this.slot := slot;
      this.afterCrash := {slot};
    }

    method RenameOver(b: Batch)
      modifies this
      ensures Contents() == Disk(Some(b), old(afterCrash) + {Some(b)})
    {
      slot := Some(b);
      afterCrash := afterCrash + {Some(b)};
    }

    method Remove()
      modifies this
      ensures Contents() == Disk(None, old(afterCrash) + {None})
    {
      slot := None;
      afterCrash := afterCrash + {None};
    }

    method SyncDirectory()
      modifies this
      ensures Contents() == Disk(old(slot), {old(slot)})
    {
      afterCrash := {slot};
    }

    method Save(batch: Batch, io: SaveOutcome) returns (ok: bool)
      modifies this
      ensures ok == io.Saved?
      ensures Contents() == SaveSpec(old(Contents()), batch, io)
    {
      if io.NotWritten? || io.NotRenamed? {
        return false;
      }
      RenameOver(batch);
      if io.NotSynced? {
        if io.removed {
          Remove();
        }
        assert old(afterCrash) + {Some(batch)} + {None} == old(afterCrash) + {Some(batch), None};
        return false;
      }
      SyncDirectory();
      return true;
    }

    method Clear(io: ClearOutcome) returns (ok: bool)
      modifies this
      ensures ok == io.Cleared?
      ensures Contents() == ClearSpec(old(Contents()), io)
    {
      if io.NotRemoved? {
        return false;
      }
      Remove();
      if io.RemovedNotSynced? {
        return false;
      }
      SyncDirectory();
      return true;
    }

    method Open() returns (r: LoadResult)
      ensures r == if ValidSlot(slot) then Loaded(slot) else InvalidSlot
      ensures slot == None ==> r == Loaded(None)
      ensures slot.Some? && slot.value.id.Some? && slot.value.traffic != map[] ==> r == Loaded(slot)
      ensures slot.Some? && (slot.value.id.None? || slot.value.traffic == map[]) ==> r == InvalidSlot
    {
      if slot == None {
        return Loaded(None);
      }
      if slot.value.id == None || slot.value.traffic == map[] {
        return InvalidSlot;
      }
      return Loaded(slot);
    }
  }
}
