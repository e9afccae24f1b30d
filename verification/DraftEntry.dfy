/** Saving one review's draft: a debounce timer, a single retry timer, the pending document and a dirty flag. */
module DraftEntry {
  import opened Sequences

  /** A draft document. Every edit makes a new one, so the number stands for object identity. */
  datatype Draft = Draft(id: nat, body: string)

  /** The persistence state as a value; a timer is either armed or not. */
  datatype Persist = Persist(saveTimer: bool, retryTimer: bool, pending: Option<Draft>, dirty: bool)
  {
    function ClearTimers(): Persist
    {
      this.(saveTimer := false, retryTimer := false)
    }

    function Schedule(draft: Draft): Persist
    {
      Persist(true, false, Some(draft), dirty)
    }

    /** Firing consumes the timer; what is pending is then attempted. */
    function SaveTimerFired(): Persist { this.(saveTimer := false) }
    function RetryTimerFired(): Persist { this.(retryTimer := false) }

    function Flushed(): Persist
    {
      if pending.None? then this else ClearTimers()
    }

    function Dropped(): Persist
    {
      Persist(false, false, None, false)
    }

    function Saved(draft: Draft): Persist
    {
      if pending == Some(draft) then this.(pending := None, dirty := false) else this
    }

    function Failed(draft: Draft, isRetry: bool): Persist
    {
      if pending != Some(draft) then this
      else if !isRetry then this.(retryTimer := true)
      else this.(dirty := true)
    }
  }

  const CLEAN := Persist(false, false, None, false)

  class PersistEntry {
    var saveTimer: bool
    var retryTimer: bool
    var pending: Option<Draft>
    var dirty: bool

    function Value(): Persist
      reads this
    {
      Persist(saveTimer, retryTimer, pending, dirty)
    }

    constructor ()
      ensures Value() == CLEAN
    {
      saveTimer, retryTimer, pending, dirty := false, false, None, false;
    }

    method SetDirty(d: bool)
      modifies this`dirty
      ensures dirty == d
    {
      if dirty == d {
        return;
      }
      dirty := d;
    }

    method ClearTimers()
      modifies this`saveTimer, this`retryTimer
      ensures Value() == old(Value()).ClearTimers()
    {
      if saveTimer {
        saveTimer := false;
      }
      if retryTimer {
        retryTimer := false;
      }
    }

    /** The part of an attempt before its request goes out: what, if anything, is sent. */
    method AttemptSave() returns (request: Option<Draft>)
      ensures request == pending
    {
      request := pending;
    }

    /** The part of an attempt after its request was answered. */
    method SaveAnswered(draft: Draft, isRetry: bool, ok: bool)
      modifies this
      ensures Value() == if ok then old(Value()).Saved(draft) else old(Value()).Failed(draft, isRetry)
      ensures old(pending) != Some(draft) ==> Value() == old(Value())
      ensures old(pending) == Some(draft) && ok ==>
        pending == None && !dirty && saveTimer == old(saveTimer) && retryTimer == old(retryTimer)
      ensures old(pending) == Some(draft) && !ok ==>
        && pending == old(pending) && saveTimer == old(saveTimer)
        && retryTimer == (old(retryTimer) || !isRetry) && dirty == (old(dirty) || isRetry)
    {
      if ok {
        if pending == Some(draft) {
          pending := None;
          SetDirty(false);
        }
      } else {
        if pending != Some(draft) {
          return;
        }
        if !isRetry {
          if retryTimer {
            retryTimer := false;
          }
          retryTimer := true;
        } else {
          SetDirty(true);
        }
      }
    }

    method ScheduleSave(draft: Draft)
      modifies this
      ensures Value() == old(Value()).Schedule(draft)
    {
      pending := Some(draft);
      ClearTimers();
      saveTimer := true;
    }

    method OnSaveTimer() returns (request: Option<Draft>)
      requires saveTimer
      modifies this
      ensures Value() == old(Value()).SaveTimerFired() && request == old(pending)
    {
      saveTimer := false;
      request := AttemptSave();
    }

    method OnRetryTimer() returns (request: Option<Draft>)
      requires retryTimer
      modifies this
      ensures Value() == old(Value()).RetryTimerFired() && request == old(pending)
    {
      retryTimer := false;
      request := AttemptSave();
    }

    method FlushSave() returns (request: Option<Draft>)
      modifies this
      ensures Value() == old(Value()).Flushed() && request == old(pending)
    {
      if pending.None? {
        return None;
      }
      ClearTimers();
      request := AttemptSave();
    }

    method DropPersistState()
      modifies this
      ensures Value() == old(Value()).Dropped()
    {
      ClearTimers();
      pending := None;
      SetDirty(false);
    }
  }
}
