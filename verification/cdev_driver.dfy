// The driver's critical sections as updates of one object.  Each section is its step of CdevState, keeps
// `Valid()` (both reference counts are their numbers of holders), and its status says what it did.
module CdevDriver {
  import opened CdevState

  datatype Errno = Success | Perm | Busy | NoDevice | Invalid | Stale

  class CdevCore {
    var queue: Queue
    var payload: Payload
    var files: map<nat, File>
    var waits: nat
    var creating: set<nat>
    var leasing: set<nat>
    var allocating: Option<nat>

    function Value(): Driver
      reads this
    {
      Driver(queue, payload, files, waits, creating, leasing, allocating)
    }

    /** Counts are holders, mappings live while held, and rights have one owner. */
    ghost predicate Valid()
      reads this
    {
      Inv(Value())
    }

    constructor ()
      ensures Initial(Value()) && Valid()
    {
      queue := Queue(1, true, true, true, None, None, None, 0);
      payload := Payload(0, false, false, false, false, None, 0);
      files, waits, creating, leasing, allocating := map[], 0, {}, {}, None;
      new;
      InitialInv(Value());
    }

    method QueuePut()
      modifies this`queue
      ensures queue == PutQueue(old(queue))
    {
      queue := queue.(refs := queue.refs - 1);
      if queue.refs == 0 { queue := queue.(mapped := false); }
    }

    method PayloadPut()
      modifies this`payload
      ensures payload == PutPayload(old(payload))
    {
      payload := payload.(refs := payload.refs - 1);
      if payload.refs == 0 { payload := payload.(mapped := false); }
    }

    method PayloadMarkOffline()
      modifies this`payload
      ensures payload == PayloadOffline(old(payload))
    {
      if payload.online {
        payload := payload.(online := false);
        if payload.root {
          payload := payload.(root := false);
          PayloadPut();
        }
      }
    }

    method QueueMarkOffline()
      modifies this`queue
      ensures queue == QueueOffline(old(queue))
    {
      if queue.online {
        queue := queue.(online := false);
        if queue.root {
          queue := queue.(root := false);
          QueuePut();
        }
      }
    }

    method PayloadDisown()
      modifies this`payload
      ensures payload == DisownPayload(old(payload))
    {
      payload := payload.(owner := None);
      PayloadMarkOffline();
      if payload.ownerRef {
        payload := payload.(ownerRef := false);
        PayloadPut();
      }
    }

    method QueueCreate(f: nat, events: bool) returns (status: Errno)
      requires f in files
      modifies this`queue, this`files, this`creating
      ensures Value() == CreateStep(old(Value()), f, events)
      ensures old(Valid()) ==> Valid()
      ensures status == Perm <==> !old(files)[f].negotiated
      ensures status == NoDevice <==> old(files)[f].negotiated && !old(files)[f].created && !queue.online
      ensures status == Success <==> Value() != old(Value())
      ensures status == Success <==>
        && old(files)[f].negotiated && !old(files)[f].created && old(queue).online
        && (old(queue).owner == None || old(queue).owner == Some(f)) && old(queue).events == None
      ensures status != Stale && status != Invalid
      ensures status == Success ==>
        && queue.owner == Some(f) && queue.refs == old(queue).refs + 1 && f in creating && files[f].created
        && queue.events == if events then Some(f) else None
      ensures old(Valid()) && status == Success ==> CreateReturnStep(Value(), f, false) == old(Value())
    {
      hide Inv, CreateReturnStep;
      if Valid() {
        CreateKeeps(Value(), f, events);
        if CreateStep(Value(), f, events) != Value() { CreateUndone(Value(), f, events); }
      }
      if !files[f].negotiated { return Perm; }
      if files[f].created { return Errno.Busy; }
      if !queue.online { return NoDevice; }
      if queue.owner != None && queue.owner != Some(f) { return Errno.Busy; }
      if queue.events != None { return Errno.Busy; }
      if events { queue := queue.(events := Some(f)); }
      queue := queue.(owner := Some(f), refs := queue.refs + 1);
      files := files[f := files[f].(created := true)];
      creating := creating + {f};
      status := Success;
    }

    method QueueCreateFailed(f: nat)
      requires f in files && f in creating
      modifies this`queue, this`files, this`creating
      ensures Value() == CreateReturnStep(old(Value()), f, false)
      ensures old(Valid()) ==> Valid()
      ensures queue.owner != Some(f) && queue.events != Some(f) && !files[f].created && f !in creating
    {
      hide Inv;
      if Valid() { CreateReturnKeeps(Value(), f, false); }
      if queue.owner == Some(f) { queue := queue.(owner := None); }
      if queue.events == Some(f) { queue := queue.(events := None); }
      files := files[f := files[f].(created := false)];
      QueuePut();
      creating := creating - {f};
    }

    /** `stale` says whether the request names another view or an old generation. */
    method WorkerLease(f: nat, events: bool, stale: bool) returns (status: Errno)
      requires f in files
      modifies this`queue, this`files, this`leasing
      ensures Value() == if stale then old(Value()) else LeaseStep(old(Value()), f, events)
      ensures old(Valid()) ==> Valid()
      ensures status == Perm <==> !old(files)[f].control
      ensures status == NoDevice <==> old(files)[f].control && !old(files)[f].leased && !queue.online
      ensures status == Success <==> Value() != old(Value())
      ensures status == Success || status == Stale <==>
        && old(files)[f].control && !old(files)[f].leased && old(queue).online
        && (old(queue).lease == None || old(queue).lease == Some(f))
        && (old(queue).events == None || old(queue).events == Some(f))
      ensures status == Stale ==> stale
      ensures status == Success ==> !stale
      ensures status != Invalid
      ensures status == Success ==>
        && queue.lease == Some(f) && queue.refs == old(queue).refs + 1 && f in leasing && files[f].leased
        && queue.events == if events then Some(f) else old(queue).events
      ensures old(Valid()) && status == Success ==>
        (LeaseReturnStep(Value(), f, false) == old(Value()) <==> old(queue).events != Some(f))
    {
      hide Inv, LeaseReturnStep;
      LeaseChanges(Value(), f, events);
      if Valid() {
        LeaseKeeps(Value(), f, events);
        if MayLease(Value(), f) { LeaseUndoneIff(Value(), f, events); }
      }
      if !files[f].control { return Perm; }
      if files[f].leased { return Errno.Busy; }
      if !queue.online { return NoDevice; }
      if queue.lease != None && queue.lease != Some(f) { return Errno.Busy; }
      if queue.events != None && queue.events != Some(f) { return Errno.Busy; }
      if stale { return Stale; }
      if events { queue := queue.(events := Some(f)); }
      queue := queue.(lease := Some(f), refs := queue.refs + 1);
      files := files[f := files[f].(leased := true)];
      leasing := leasing + {f};
      status := Success;
    }

    method WorkerLeaseFailed(f: nat)
      requires f in files && f in leasing
      modifies this`queue, this`files, this`leasing
      ensures Value() == LeaseReturnStep(old(Value()), f, false)
      ensures old(Valid()) ==> Valid()
      ensures queue.lease != Some(f) && queue.events != Some(f) && !files[f].leased && f !in leasing
    {
      hide Inv;
      if Valid() { LeaseReturnKeeps(Value(), f, false); }
      if queue.lease == Some(f) { queue := queue.(lease := None); }
      if queue.events == Some(f) { queue := queue.(events := None); }
      files := files[f := files[f].(leased := false)];
      QueuePut();
      leasing := leasing - {f};
    }

    /** Map the queue, when asked for its whole size; a failed remap gives the reference back. */
    method MapQueuePages(f: nat, sized: bool, remapped: bool) returns (status: Errno)
      requires f in files
      modifies this`queue
      ensures Value() == if sized then MapQueueStep(old(Value()), f, remapped) else old(Value())
      ensures old(Valid()) ==> Valid()
      ensures status == NoDevice <==>
        sized && (files[f].created || files[f].leased) && (!old(queue).online || !old(queue).mapped)
      ensures status == Success <==>
        sized && remapped && (files[f].created || files[f].leased) && old(queue).online && old(queue).mapped
      ensures status == Success <==> queue.vmas == old(queue).vmas + 1
      ensures status == Success || status == NoDevice || status == Invalid
      ensures old(Valid()) && status != Success ==> Value() == old(Value())
    {
      hide Inv;
      if Valid() {
        QueueCountsKept(Value(), MapQueue(f, remapped));
        InvCounts(Value());
      }
      if (!files[f].created && !files[f].leased) || !sized { return Invalid; }
      if !queue.online || !queue.mapped { return NoDevice; }
      queue := queue.(refs := queue.refs + 1, vmas := queue.vmas + 1);
      status := Success;
      if !remapped {
        queue := queue.(vmas := queue.vmas - 1);
        QueuePut();
        status := Invalid;
      }
    }

    /** Map the whole payload, as its owner or as a worker that holds the lease. */
    method MapPayloadPages(f: nat, sized: bool, remapped: bool) returns (status: Errno)
      requires f in files
      modifies this`payload
      ensures Value() == if sized then MapPayloadStep(old(Value()), f, remapped) else old(Value())
      ensures old(Valid()) ==> Valid()
      ensures status == NoDevice <==> !old(payload).online
      ensures status == Success <==>
        && sized && remapped && old(payload).online && old(payload).mapped
        && (old(payload).owner == Some(f) || (old(payload).owner.Some? && files[f].control && files[f].leased))
      ensures status == Success <==> payload.vmas == old(payload).vmas + 1
      ensures status == Success || status == NoDevice || status == Invalid
      ensures old(Valid()) && status != Success ==> Value() == old(Value())
    {
      hide Inv;
      if Valid() {
        PayloadCountsKept(Value(), MapPayload(f, remapped));
        InvCounts(Value());
      }
      var worker := files[f].control && files[f].leased;
      if !payload.online || !payload.mapped || payload.owner == None || (payload.owner != Some(f) && !worker)
          || !sized {
        return if payload.online then Invalid else NoDevice;
      }
      payload := payload.(refs := payload.refs + 1, vmas := payload.vmas + 1);
      status := Success;
      if !remapped {
        payload := payload.(vmas := payload.vmas - 1);
        PayloadPut();
        status := Invalid;
      }
    }

    /** `stale` says whether the request names an old generation. */
    method MemoryAllocate(f: nat, stale: bool) returns (status: Errno)
      requires f in files
      modifies this`payload, this`files, this`allocating
      ensures Value() == if stale then old(Value()) else AllocateStep(old(Value()), f)
      ensures old(Valid()) ==> Valid()
      ensures status == Perm <==> old(files)[f].control || !old(files)[f].negotiated
      ensures status == NoDevice <==> !old(files)[f].control && old(files)[f].negotiated && !queue.online
      ensures status == Invalid <==>
        !old(files)[f].control && old(files)[f].negotiated && queue.online && stale
      ensures status == Success <==>
        && !old(files)[f].control && old(files)[f].negotiated && queue.online && !stale
        && !old(payload).online && !old(payload).mapped
      ensures status != Stale
      ensures old(Valid()) ==> (status == Success <==> Value() != old(Value()))
      ensures old(Valid()) && status == Success ==>
        && old(payload) == UNHELD && payload.owner == Some(f) && payload.refs == PayloadHolders(payload, true) == 3
        && AllocateReturnStep(Value(), false) == old(Value())
    {
      hide Inv, AllocateReturnStep;
      if Valid() {
        AllocateKeeps(Value(), f);
        if AllocateStep(Value(), f) != Value() {
          AllocateUndone(Value(), f);
          AllocatesUnheld(Value(), f);
        }
      }
      if files[f].control || !files[f].negotiated { return Perm; }
      if !queue.online { return NoDevice; }
      if stale { return Invalid; }
      if payload.online || payload.mapped { return Errno.Busy; }
      payload := Payload(1, true, payload.online, true, payload.ownerRef, Some(f), payload.vmas);
      payload := payload.(ownerRef := true, refs := payload.refs + 1);
      payload := payload.(refs := payload.refs + 1, vmas := 0, online := true);
      allocating := Some(f);
      files := files[f := files[f].(hasMemory := true)];
      status := Success;
    }

    method MemoryAllocateReturns(copied: bool)
      requires allocating.Some?
      modifies this`payload, this`files, this`allocating
      ensures Value() == AllocateReturnStep(old(Value()), copied)
      ensures old(Valid()) ==> Valid()
      ensures allocating == None
    {
      hide Inv;
      if Valid() { AllocateReturnKeeps(Value(), copied); }
      var f := allocating.value;
      if !copied && f in files && payload.owner == Some(f) {
        files := files[f := files[f].(hasMemory := false)];
        PayloadDisown();
      }
      PayloadPut();
      allocating := None;
    }

    method DropCreator(f: nat)
      modifies this`queue
      ensures queue == UncreateQueue(old(queue), f)
    {
      if queue.owner == Some(f) { queue := queue.(owner := None); }
      QueuePut();
    }

    method DropLease(f: nat)
      modifies this`queue
      ensures queue == UnleaseQueue(old(queue), f)
    {
      if queue.lease == Some(f) { queue := queue.(lease := None); }
      QueuePut();
    }

    method ReleaseFile(f: nat)
      requires f in files && !CdevState.Busy(Value(), f)
      modifies this`queue, this`payload, this`files
      ensures Value() == ReleaseStep(old(Value()), f)
      ensures old(Valid()) ==> Valid()
      ensures old(Valid()) ==>
        queue.owner != Some(f) && queue.lease != Some(f) && queue.events != Some(f) && payload.owner != Some(f)
    {
      hide Inv, UncreateQueue, UnleaseQueue, DisownPayload;
      if Valid() {
        ReleaseKeeps(Value(), f);
        ReleaseForgets(Value(), f);
      }
      if files[f].created { DropCreator(f); }
      if files[f].leased { DropLease(f); }
      if queue.events == Some(f) { queue := queue.(events := None); }
      if payload.owner == Some(f) { PayloadDisown(); }
      files := files - {f};
    }

    method Unload()
      requires Enabled(Value(), Exit)
      modifies this`queue, this`payload
      ensures Value() == ExitStep(old(Value()))
      ensures old(Valid()) ==> Valid()
      ensures old(Valid()) ==>
        queue.refs == waits && (queue.mapped <==> waits > 0) && payload.refs == 0 && !payload.mapped
    {
      hide Inv;
      if Valid() {
        ExitKeeps(Value());
        UnloadFreesAll(Value());
      }
      QueueMarkOffline();
      if queue.owner != None {
        queue := queue.(owner := None);
        QueuePut();
      }
      if queue.lease != None {
        queue := queue.(lease := None);
        QueuePut();
      }
      queue := queue.(events := None);
      PayloadMarkOffline();
      if payload.owner != None {
        payload := payload.(owner := None);
        if payload.ownerRef {
          payload := payload.(ownerRef := false);
          PayloadPut();
        }
      }
    }
  }
}
