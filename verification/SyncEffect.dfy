/**
 The synchronization effect of gui/src/App.tsx: subscribe first, ask for a
 snapshot, hold back events while it is on its way, then install and replay.
 `Sync` is the effect's state as a value, one function per callback; the class is
 the effect itself, which updates its closure variables in place.
 */
module SyncEffect {
  import opened ClientState

  const BUFFER_LIMIT := 2048

  datatype Sync = Sync(
    active: bool,
    pending: bool,
    buffered: seq<Event>,
    overflow: bool,
    syncing: bool,       // React state shown to the user
    syncPending: bool,   // syncPendingRef, read by the commands
    gui: GuiState)

  const MOUNTED := Sync(true, false, [], false, true, true, EMPTY)

  /** `refresh` up to its await. A second call while one is on its way does nothing. */
  function StartRefresh(s: Sync): Sync {
    if !s.active || s.pending then s
    else s.(pending := true, syncPending := true, buffered := [], overflow := false, syncing := true)
  }

  /** The `finally` block. */
  function Settle(s: Sync): Sync {
    s.(buffered := [], pending := false, syncPending := false, syncing := false)
  }

  function SnapshotArrived(s: Sync, snapshot: Snapshot): Sync {
    if !s.active then s
    else if s.overflow then Settle(s.(gui := Reduce(s.gui, SyncFailed)))
    else Settle(s.(gui := ApplyAll(InstallSnapshot(snapshot), s.buffered)))
  }

  function SnapshotRefused(s: Sync): Sync {
    if !s.active then s else Settle(s.(gui := Reduce(s.gui, SyncFailed)))
  }

  function EventArrived(s: Sync, event: Event): Sync {
    if !s.active then s
    else if s.pending then
      if |s.buffered| < BUFFER_LIMIT then s.(buffered := s.buffered + [event]) else s.(overflow := true)
    else s.(gui := Reduce(s.gui, EventReceived(event)))
  }

  function SnapshotPushed(s: Sync, snapshot: Snapshot): Sync {
    if !s.active then s else s.(gui := Reduce(s.gui, SnapshotInstalled(snapshot)), syncing := false)
  }

  function ConnectionLost(s: Sync, connection: Connection): Sync {
    if !s.active then s else s.(gui := Reduce(s.gui, ConnectionChanged(connection)), syncing := true)
  }

  function Disposed(s: Sync): Sync {
    s.(active := false)
  }

  class SyncEffect {
    var active: bool
    var pending: bool
    var buffered: seq<Event>
    var overflow: bool
    var syncing: bool
    var syncPendingRef: bool
    var gui: GuiState

    function State(): Sync
      reads this
    {
      Sync(active, pending, buffered, overflow, syncing, syncPendingRef, gui)
    }

    constructor ()
      ensures State() == MOUNTED
    {
      active, pending, buffered, overflow := true, false, [], false;
      syncing, syncPendingRef, gui := true, true, EMPTY;
    }

    method Dispatch(action: Action)
      modifies this`gui
      ensures gui == Reduce(old(gui), action)
    {
      gui := Reduce(gui, action);
    }

    method Refresh()
      modifies this
      ensures State() == StartRefresh(old(State()))
    {
      if !active || pending {
        return;
      }
      pending := true;
      syncPendingRef := true;
      buffered := [];
      overflow := false;
      syncing := true;
    }

    /** The rest of `refresh` once its snapshot is there. */
    method Resume(snapshot: Snapshot)
      modifies this
      ensures State() == SnapshotArrived(old(State()), snapshot)
    {
      if !active {
        return;
      }
      if overflow {
        Dispatch(SyncFailed);
      } else {
        Dispatch(SnapshotInstalled(snapshot));
        var i := 0;
        while i < |buffered|
          invariant 0 <= i <= |buffered|
          invariant gui == ApplyAll(InstallSnapshot(snapshot), buffered[..i])
          invariant active == old(active) && pending == old(pending) && buffered == old(buffered)
          invariant overflow == old(overflow) && syncing == old(syncing) && syncPendingRef == old(syncPendingRef)
        {
          Dispatch(EventReceived(buffered[i]));
          assert buffered[..i + 1][..i] == buffered[..i];
          i := i + 1;
        }
        assert buffered[..i] == buffered;
      }
      Finish();
    }

    method Fail()
      modifies this
      ensures State() == SnapshotRefused(old(State()))
    {
      if active {
        Dispatch(SyncFailed);
        Finish();
      }
    }

    method Finish()
      modifies this
      ensures State() == Settle(old(State()))
    {
      buffered := [];
      pending := false;
      syncPendingRef := false;
      syncing := false;
    }

    method OnEvent(event: Event)
      modifies this
      ensures State() == EventArrived(old(State()), event)
    {
      if !active {
        return;
      }
      if pending {
        if |buffered| < BUFFER_LIMIT {
          buffered := buffered + [event];
        } else {
          overflow := true;
        }
      } else {
        Dispatch(EventReceived(event));
      }
    }

    method OnSnapshot(snapshot: Snapshot)
      modifies this
      ensures State() == SnapshotPushed(old(State()), snapshot)
    {
      if active {
        Dispatch(SnapshotInstalled(snapshot));
        syncing := false;
      }
    }

    method OnConnection(connection: Connection)
      modifies this
      ensures State() == ConnectionLost(old(State()), connection)
    {
      if active {
        Dispatch(ConnectionChanged(connection));
        syncing := true;
      }
    }

    method Dispose()
      modifies this
      ensures State() == Disposed(old(State()))
    {
      active := false;
    }
  }
}
