// What a registry call comes to when its actor runs alone: validate_device answers every handle exactly as the
// mapping stands.
module RegistryAlone {
  import opened RegistryProtocol
  import opened RegistryInvariants
  import opened RegistrySafety
  import opened RegistryTheorems

  // ---- Steps of one actor that changes nothing ----

  /** The next program counter of an actor that finds the mapping of s. */
  function Next(s: System, now: nat, pc: Pc): Pc {
    ActorStep(s.viewId, s.g, At(s.devices, Target(pc)), |s.devices|, now, pc, Stay).pc
  }

  function Steps(s: System, now: nat, pc: Pc, n: nat): Pc
    decreases n
  {
    if n == 0 then pc else Steps(s, now + 1, Next(s, now, pc), n - 1)
  }

  /** At `pc` at time `now` it is at `end` at time `later`. */
  ghost predicate Leads(s: System, now: nat, pc: Pc, later: nat, end: Pc) {
    now <= later && Steps(s, now, pc, later - now) == end
  }

  lemma {:induction false} LeadsStep(s: System, now: nat, pc: Pc)
    ensures Leads(s, now, pc, now + 1, Next(s, now, pc))
  {
    hide Next;
    assert Steps(s, now + 1, Next(s, now, pc), 0) == Next(s, now, pc);
  }

  lemma {:induction false} LeadsOn(s: System, now: nat, pc: Pc, middle: nat, through: Pc, later: nat, end: Pc)
    requires Leads(s, now, pc, middle, through) && Leads(s, middle, through, later, end)
    ensures Leads(s, now, pc, later, end)
    decreases middle - now
  {
    hide Next;
    if now < middle { LeadsOn(s, now + 1, Next(s, now, pc), middle, through, later, end); }
  }

  // ---- What a reader finds ----

  datatype Verdict = Accept | Refuse(status: Status) | Again

  /** What one pass over the view, the control words, the device and its fence comes to. */
  function Judge(g: Globals, dev: Device, identity: nat): Verdict {
    if !g.view.state.ViewOpen? then Refuse(TerminalView)
    else if Odd(g.controlLatch) then Again
    else if g.gate != GATE_OPEN || g.terminal != 0 then Refuse(TerminalView)
    else if dev.word.state.Updating? then Again
    else if dev.word.state.Closed? then Refuse(DeviceLost)
    else if Odd(dev.latch) then Again
    else if |dev.fence| != FENCE_WORDS || dev.fence[IDENTITY] != identity then Refuse(StaleHandle)
    else if dev.fence[STATE] != ONLINE then Refuse(DeviceLost)
    else Accept
  }

  /** An odd control latch is read four times and then given up on. */
  lemma {:induction false} ControlGivenUp(s: System, now: nat, r: Reader, inner: nat)
    requires Odd(s.g.controlLatch) && inner <= SNAPSHOT_ATTEMPTS
    ensures Leads(s, now, Reading(r, RControlFirst(inner)), now + SNAPSHOT_ATTEMPTS - inner + 1, NextAttempt(r))
    decreases SNAPSHOT_ATTEMPTS - inner
  {
    var pc := Reading(r, RControlFirst(inner));
    LeadsStep(s, now, pc);
    if inner < SNAPSHOT_ATTEMPTS {
      ControlGivenUp(s, now + 1, r, inner + 1);
      LeadsOn(s, now, pc, now + 1, Reading(r, RControlFirst(inner + 1)), now + SNAPSHOT_ATTEMPTS - inner + 1,
              NextAttempt(r));
    }
  }

  lemma {:induction false} FenceGivenUp(s: System, now: nat, r: Reader, inner: nat)
    requires Odd(At(s.devices, r.d).latch) && inner <= SNAPSHOT_ATTEMPTS
    ensures Leads(s, now, Reading(r, RFenceFirst(inner)), now + SNAPSHOT_ATTEMPTS - inner + 1, NextAttempt(r))
    decreases SNAPSHOT_ATTEMPTS - inner
  {
    var pc := Reading(r, RFenceFirst(inner));
    LeadsStep(s, now, pc);
    if inner < SNAPSHOT_ATTEMPTS {
      FenceGivenUp(s, now + 1, r, inner + 1);
      LeadsOn(s, now, pc, now + 1, Reading(r, RFenceFirst(inner + 1)), now + SNAPSHOT_ATTEMPTS - inner + 1,
              NextAttempt(r));
    }
  }

  /** With an even control latch the gate and the terminal flag are read in four steps. */
  lemma {:induction false} ControlRead(s: System, now: nat, r: Reader)
    requires !Odd(s.g.controlLatch)
    ensures
      var g := s.g;
      Leads(s, now, Reading(r, RControlFirst(0)), now + 4,
            if g.gate != GATE_OPEN || g.terminal != 0 then Returned(TerminalView)
            else Reading(r.(control := g.controlLatch, gate := g.gate, terminal := g.terminal), RDevice))
  {
    var pc := Reading(r, RControlFirst(0));
    var r1 := r.(control := s.g.controlLatch);
    var r2 := r1.(gate := s.g.gate);
    var r3 := r2.(terminal := s.g.terminal);
    LeadsStep(s, now, pc);
    LeadsStep(s, now + 1, Reading(r1, RControlGate(0)));
    LeadsStep(s, now + 2, Reading(r2, RControlTerminal(0)));
    LeadsStep(s, now + 3, Reading(r3, RControlSecond(0)));
    var end := Next(s, now + 3, Reading(r3, RControlSecond(0)));
    hide Leads;
    LeadsOn(s, now, pc, now + 1, Reading(r1, RControlGate(0)), now + 2, Reading(r2, RControlTerminal(0)));
    LeadsOn(s, now, pc, now + 2, Reading(r2, RControlTerminal(0)), now + 3, Reading(r3, RControlSecond(0)));
    LeadsOn(s, now, pc, now + 3, Reading(r3, RControlSecond(0)), now + 4, end);
  }

  /** The fence is copied word by word. */
  lemma {:induction false} FenceCopied(s: System, now: nat, r: Reader)
    requires |At(s.devices, r.d).fence| == FENCE_WORDS && |r.fence| < FENCE_WORDS
    requires r.fence == At(s.devices, r.d).fence[..|r.fence|]
    ensures Leads(s, now, Reading(r, RFenceField(0)), now + FENCE_WORDS - |r.fence|,
                  Reading(r.(fence := At(s.devices, r.d).fence), RFenceSecond(0)))
    decreases FENCE_WORDS - |r.fence|
  {
    var dev, n := At(s.devices, r.d), |r.fence|;
    var more := r.(fence := r.fence + [dev.fence[n]]);
    var pc := Reading(r, RFenceField(0));
    assert more.fence == dev.fence[..n + 1];
    LeadsStep(s, now, pc);
    if n + 1 < FENCE_WORDS {
      FenceCopied(s, now + 1, more);
      LeadsOn(s, now, pc, now + 1, Reading(more, RFenceField(0)), now + FENCE_WORDS - n,
              Reading(r.(fence := dev.fence), RFenceSecond(0)));
    } else {
      assert dev.fence[..FENCE_WORDS] == dev.fence;
    }
  }

  /** With an even fence latch the fence is read and checked. */
  lemma {:induction false} FenceRead(s: System, now: nat, r: Reader)
    requires |At(s.devices, r.d).fence| == FENCE_WORDS && !Odd(At(s.devices, r.d).latch)
    ensures
      var dev := At(s.devices, r.d);
      var r2 := r.(fenceLatch := dev.latch, fence := dev.fence);
      Leads(s, now, Reading(r, RFenceFirst(0)), now + 8,
            if dev.fence[IDENTITY] != r.handle.identity then Returned(StaleHandle)
            else if dev.fence[STATE] != ONLINE then Returned(DeviceLost) else Reading(r2, RViewAfter))
  {
    var dev := At(s.devices, r.d);
    var pc := Reading(r, RFenceFirst(0));
    var r1 := r.(fenceLatch := dev.latch, fence := []);
    var r2 := r1.(fence := dev.fence);
    LeadsStep(s, now, pc);
    FenceCopied(s, now + 1, r1);
    LeadsStep(s, now + 7, Reading(r2, RFenceSecond(0)));
    var end := Next(s, now + 7, Reading(r2, RFenceSecond(0)));
    hide Leads;
    LeadsOn(s, now, pc, now + 1, Reading(r1, RFenceField(0)), now + 7, Reading(r2, RFenceSecond(0)));
    LeadsOn(s, now, pc, now + 7, Reading(r2, RFenceSecond(0)), now + 8, end);
  }

  /** Nothing having moved, the last three loads confirm. */
  lemma {:induction false} Confirmed(s: System, now: nat, r: Reader)
    requires r.viewBefore == s.g.view && r.control == s.g.controlLatch && r.before == At(s.devices, r.d).word
    ensures Leads(s, now, Reading(r, RViewAfter), now + 3, Validated(r))
  {
    var pc := Reading(r, RViewAfter);
    LeadsStep(s, now, pc);
    LeadsStep(s, now + 1, Reading(r, RControlAfter(true)));
    LeadsStep(s, now + 2, Reading(r, RDeviceAfter(true)));
    hide Leads;
    LeadsOn(s, now, pc, now + 1, Reading(r, RControlAfter(true)), now + 2, Reading(r, RDeviceAfter(true)));
    LeadsOn(s, now, pc, now + 2, Reading(r, RDeviceAfter(true)), now + 3, Validated(r));
  }

  /** Where a pass ends; a reader that goes on or succeeds keeps its handle, its device and its attempt. */
  ghost predicate PassEnds(s: System, r: Reader, end: Pc) {
    match Judge(s.g, At(s.devices, r.d), r.handle.identity)
    case Refuse(status) => end == Returned(status)
    case Accept => end.Validated? && SameReader(r, end.r) && end.r.fence == At(s.devices, r.d).fence
    case Again => exists r2 :: SameReader(r, r2) && end == NextAttempt(r2)
  }

  predicate SameReader(r: Reader, r2: Reader) {
    r2.handle == r.handle && r2.d == r.d && r2.start == r.start && r2.attempt == r.attempt
  }

  /** The second half of a pass, from the device's admission word on. */
  lemma {:induction false} DevicePass(s: System, now: nat, r: Reader) returns (later: nat, end: Pc)
    requires |At(s.devices, r.d).fence| == FENCE_WORDS
    requires s.g.view.state.ViewOpen? && !Odd(s.g.controlLatch) && s.g.gate == GATE_OPEN && s.g.terminal == 0
    requires r.viewBefore == s.g.view && r.control == s.g.controlLatch
    ensures Leads(s, now, Reading(r, RDevice), later, end) && PassEnds(s, r, end)
  {
    var dev := At(s.devices, r.d);
    var pc := Reading(r, RDevice);
    LeadsStep(s, now, pc);
    later, end := now + 1, Next(s, now, pc);
    if dev.word.state.Open? {
      var r1 := end.r;
      if Odd(dev.latch) {
        FenceGivenUp(s, now + 1, r1, 0);
        LeadsOn(s, now, pc, now + 1, end, now + 6, NextAttempt(r1));
        later, end := now + 6, NextAttempt(r1);
      } else {
        FenceRead(s, now + 1, r1);
        var r2 := r1.(fenceLatch := dev.latch, fence := dev.fence);
        var read :=
          if dev.fence[IDENTITY] != r.handle.identity then Returned(StaleHandle)
          else if dev.fence[STATE] != ONLINE then Returned(DeviceLost) else Reading(r2, RViewAfter);
        hide Leads;
        LeadsOn(s, now, pc, now + 1, end, now + 9, read);
        later, end := now + 9, read;
        if read.Reading? {
          Confirmed(s, now + 9, r2);
          LeadsOn(s, now, pc, now + 9, read, now + 12, Validated(r2));
          later, end := now + 12, Validated(r2);
        }
      }
    } else {
      assert SameReader(r, r);
    }
  }

  lemma {:induction false} Pass(s: System, now: nat, r: Reader) returns (later: nat, end: Pc)
    requires |At(s.devices, r.d).fence| == FENCE_WORDS
    ensures Leads(s, now, Reading(r, RView), later, end) && PassEnds(s, r, end)
  {
    var pc := Reading(r, RView);
    LeadsStep(s, now, pc);
    later, end := now + 1, Next(s, now, pc);
    if s.g.view.state.ViewOpen? {
      var r1 := r.(viewBefore := s.g.view);
      assert end == Reading(r1, RControlFirst(0));
      if Odd(s.g.controlLatch) {
        ControlGivenUp(s, now + 1, r1, 0);
        LeadsOn(s, now, pc, now + 1, end, now + 6, NextAttempt(r1));
        later, end := now + 6, NextAttempt(r1);
        assert SameReader(r, r1);
      } else {
        ControlRead(s, now + 1, r1);
        var r2 := r1.(control := s.g.controlLatch, gate := s.g.gate, terminal := s.g.terminal);
        var read := if s.g.gate != GATE_OPEN || s.g.terminal != 0 then Returned(TerminalView) else Reading(r2, RDevice);
        hide Leads;
        LeadsOn(s, now, pc, now + 1, end, now + 5, read);
        later, end := now + 5, read;
        if read.Reading? {
          var last, final := DevicePass(s, now + 5, r2);
          LeadsOn(s, now, pc, now + 5, read, last, final);
          SamePass(s, r, r2, final);
          later, end := last, final;
        }
      }
    }
  }

  lemma {:induction false} SamePass(s: System, r: Reader, r2: Reader, end: Pc)
    requires SameReader(r, r2) && PassEnds(s, r2, end)
    ensures PassEnds(s, r, end)
  {
    hide Judge;
  }

  /** All passes together: a reader that would go on gives up after four. */
  lemma {:induction false} Passes(s: System, now: nat, r: Reader) returns (later: nat, end: Pc)
    requires |At(s.devices, r.d).fence| == FENCE_WORDS && r.attempt < SNAPSHOT_ATTEMPTS
    ensures Leads(s, now, Reading(r, RView), later, end)
    ensures
      match Judge(s.g, At(s.devices, r.d), r.handle.identity)
      case Refuse(status) => end == Returned(status)
      case Again => end == Returned(Retry)
      case Accept =>
        end.Validated? && end.r.handle == r.handle && end.r.d == r.d && end.r.fence == At(s.devices, r.d).fence
    decreases SNAPSHOT_ATTEMPTS - r.attempt
  {
    hide Leads, Judge;
    later, end := Pass(s, now, r);
    if Judge(s.g, At(s.devices, r.d), r.handle.identity).Again? {
      var r2 :| SameReader(r, r2) && end == NextAttempt(r2);
      if r2.attempt + 1 < SNAPSHOT_ATTEMPTS {
        var last, final := Passes(s, later, end.r);
        LeadsOn(s, now, Reading(r, RView), later, end, last, final);
        later, end := last, final;
      }
    }
  }

  // ---- The whole call ----

  /** The first device with this identity, or the number of devices. */
  predicate FirstWith(devices: seq<Device>, identity: nat, d: nat) {
    && d <= |devices| && (forall j :: 0 <= j < d ==> devices[j].identity != identity)
    && (d < |devices| ==> devices[d].identity == identity)
  }

  lemma {:induction false} Search(s: System, now: nat, h: Handle, start: nat, i: nat) returns (later: nat, d: nat)
    requires i <= |s.devices| && forall j :: 0 <= j < i ==> s.devices[j].identity != h.identity
    ensures FirstWith(s.devices, h.identity, d)
    ensures Leads(s, now, Finding(h, start, i), later,
                  if d < |s.devices| then Matching(h, start, d) else Returned(StaleHandle))
    decreases |s.devices| - i
  {
    var pc := Finding(h, start, i);
    LeadsStep(s, now, pc);
    later, d := now + 1, i;
    if i < |s.devices| && s.devices[i].identity != h.identity {
      var last, found := Search(s, now + 1, h, start, i + 1);
      LeadsOn(s, now, pc, now + 1, Finding(h, start, i + 1), last,
              if found < |s.devices| then Matching(h, start, found) else Returned(StaleHandle));
      later, d := last, found;
    }
  }

  /** Whether a validation of h succeeds when nothing else happens. */
  ghost predicate Acceptable(s: System, h: Handle) {
    && h.viewId == s.viewId && s.g.view.state == ViewOpen && s.g.gate == GATE_OPEN && s.g.terminal == 0
    && s.g.controlLatch % 2 == 0
    && exists d: nat :: FirstWith(s.devices, h.identity, d) && d < |s.devices| && Serves(s.devices[d], h)
  }

  predicate Serves(dev: Device, h: Handle) {
    && dev.identity == h.identity && dev.committed == h.generation && dev.word.state == Open && dev.latch % 2 == 0
    && |dev.fence| == FENCE_WORDS && dev.fence[IDENTITY] == h.identity && dev.fence[STATE] == ONLINE
  }

  /** How a validation of h is answered otherwise. */
  ghost predicate Answered(s: System, h: Handle, status: Status) {
    exists d: nat :: FirstWith(s.devices, h.identity, d)
      && status ==
         if h.viewId != s.viewId || d == |s.devices| || s.devices[d].committed != h.generation then StaleHandle
         else
           match Judge(s.g, s.devices[d], h.identity)
           case Refuse(refused) => refused
           case Again => Retry
           case Accept => Success
  }

  lemma {:induction false} FirstIsOne(devices: seq<Device>, identity: nat, d: nat, e: nat)
    requires FirstWith(devices, identity, d) && FirstWith(devices, identity, e)
    ensures d == e
  {
  }

  /** Actor a calls and then runs alone for n more steps. */
  function Solo(a: nat, call: Call, n: nat): seq<Move> {
    if n == 0 then [Move(a, call)] else Solo(a, call, n - 1) + [Move(a, Stay)]
  }

  predicate ReadOnly(pc: Pc) {
    pc.Idle? || pc.Returned? || pc.Finding? || pc.Matching? || pc.Reading? || pc.Validated?
  }

  lemma {:induction false} ReaderStays(s: System, now: nat, pc: Pc, call: Call)
    requires ReadOnly(pc) && (pc.Idle? ==> call.Stay? || call.Validate?)
    ensures
      var dev := At(s.devices, Target(pc));
      var e := ActorStep(s.viewId, s.g, dev, |s.devices|, now, pc, call);
      e.g == s.g && e.dev == dev && ReadOnly(e.pc)
  {
  }

  function Put(s: System, a: nat, pc: Pc, n: nat): System
    requires a < |s.actors|
  {
    s.(now := s.now + n, actors := s.actors[a := pc])
  }

  lemma {:induction false} PutStep(s: System, a: nat, pc: Pc, n: nat, call: Call)
    requires a < |s.actors| && ReadOnly(pc) && (pc.Idle? ==> call.Stay? || call.Validate?)
    ensures
      var next := ActorStep(s.viewId, s.g, At(s.devices, Target(pc)), |s.devices|, s.now + n, pc, call).pc;
      SystemStep(Put(s, a, pc, n), a, call) == Put(s, a, next, n + 1)
  {
    hide ActorStep;
    ReaderStays(s, s.now + n, pc, call);
    var d := Target(pc);
    if d < |s.devices| { assert s.devices[d := s.devices[d]] == s.devices; }
  }

  lemma {:induction false} StepsAppend(s: System, now: nat, pc: Pc, n: nat)
    ensures Steps(s, now, pc, n + 1) == Next(s, now + n, Steps(s, now, pc, n))
    decreases n
  {
    hide Next;
    if n > 0 { StepsAppend(s, now + 1, Next(s, now, pc), n - 1); }
  }

  lemma {:induction false} SoloRun(s: System, a: nat, h: Handle, n: nat)
    requires a < |s.actors| && s.actors[a] == Idle
    ensures Schedulable(s, Solo(a, Validate(h), n)) && |Solo(a, Validate(h), n)| == n + 1
    ensures
      var pc := Steps(s, s.now + 1, Begin(s.viewId, |s.devices|, s.now, Validate(h)), n);
      ReadOnly(pc) && Run(s, Solo(a, Validate(h), n))[n + 1] == Put(s, a, pc, n + 1)
    decreases n
  {
    hide ActorStep, SystemStep, Begin, Steps, Put, Run;
    var first := Begin(s.viewId, |s.devices|, s.now, Validate(h));
    if n == 0 {
      assert Solo(a, Validate(h), 0) == [Move(a, Validate(h))];
      OneStep(s, Move(a, Validate(h)));
      CallBegins(s, a, h);
    } else {
      SoloRun(s, a, h, n - 1);
      var pc := Steps(s, s.now + 1, first, n - 1);
      var shorter := Solo(a, Validate(h), n - 1);
      RunAppend(s, shorter, Move(a, Stay));
      assert Run(s, Solo(a, Validate(h), n))[n + 1] == SystemStep(Run(s, shorter)[n], a, Stay);
      ReaderStays(s, s.now + n, pc, Stay);
      PutStep(s, a, pc, n, Stay);
      StepsAppend(s, s.now + 1, first, n - 1);
      assert Steps(s, s.now + 1, first, n) == Next(s, s.now + n, pc);
    }
  }

  lemma {:induction false} OneStep(s: System, move: Move)
    requires move.actor < |s.actors|
    ensures Run(s, [move])[1] == SystemStep(s, move.actor, move.call)
    ensures forall now, pc :: Steps(s, now, pc, 0) == pc
  {
    hide SystemStep;
  }

  lemma {:induction false} CallBegins(s: System, a: nat, h: Handle)
    requires a < |s.actors| && s.actors[a] == Idle
    ensures
      var pc := Begin(s.viewId, |s.devices|, s.now, Validate(h));
      ReadOnly(pc) && SystemStep(s, a, Validate(h)) == Put(s, a, pc, 1)
  {
    assert Put(s, a, Idle, 0) == s by { assert s.actors[a := Idle] == s.actors; }
    PutStep(s, a, Idle, 0, Validate(h));
  }

  /** The call from its first step on. */
  lemma {:induction false} CallEnds(s: System, h: Handle) returns (n: nat, end: Pc)
    requires forall d :: 0 <= d < |s.devices| ==> |s.devices[d].fence| == FENCE_WORDS
    ensures Leads(s, s.now + 1, Begin(s.viewId, |s.devices|, s.now, Validate(h)), s.now + 1 + n, end)
    ensures end.Returned? || end.Validated?
    ensures end.Validated? <==> Acceptable(s, h)
    ensures end.Validated? ==>
      && end.r.handle == h && end.r.d < |s.devices| && FirstWith(s.devices, h.identity, end.r.d)
      && Serves(s.devices[end.r.d], h) && end.r.fence == s.devices[end.r.d].fence
    ensures end.Returned? ==> end.status != Success && Answered(s, h, end.status)
  {
    hide Leads, Steps, Judge;
    var first := Begin(s.viewId, |s.devices|, s.now, Validate(h));
    var now := s.now + 1;
    FirstExists(s.devices, h.identity);
    if h.viewId != s.viewId {
      n, end := 0, first;
      LeadsNowhere(s, now, first);
    } else {
      var later, d := Search(s, now, h, s.now, 0);
      forall e: nat | FirstWith(s.devices, h.identity, e) ensures e == d { FirstIsOne(s.devices, h.identity, d, e); }
      if d == |s.devices| {
        LeadsForward(s, now, first, later, Returned(StaleHandle));
        n, end := later - now, Returned(StaleHandle);
      } else {
        var matching := Matching(h, s.now, d);
        var next := Next(s, later, matching);
        LeadsStep(s, later, matching);
        LeadsOn(s, now, first, later, matching, later + 1, next);
        LeadsForward(s, now, first, later + 1, next);
        n, end := later + 1 - now, next;
        JudgeIsServes(s.g, s.devices[d], h);
        if s.devices[d].committed == h.generation {
          var last, final := Passes(s, later + 1, next.r);
          LeadsOn(s, now, first, later + 1, next, last, final);
          LeadsForward(s, now, first, last, final);
          n, end := last - now, final;
          assert Judge(s.g, s.devices[d], h.identity).Accept? <==> Acceptable(s, h);
        }
      }
    }
  }

  lemma {:induction false} JudgeIsServes(g: Globals, dev: Device, h: Handle)
    requires dev.identity == h.identity && |dev.fence| == FENCE_WORDS
    ensures dev.committed == h.generation ==>
      (Judge(g, dev, h.identity).Accept? <==>
         g.view.state == ViewOpen && g.gate == GATE_OPEN && g.terminal == 0 && g.controlLatch % 2 == 0
         && Serves(dev, h))
    ensures Judge(g, dev, h.identity) != Refuse(Success)
  {
  }

  lemma {:induction false} FirstExists(devices: seq<Device>, identity: nat)
    ensures exists d: nat :: FirstWith(devices, identity, d)
  {
    var d := 0;
    while d < |devices| && devices[d].identity != identity
      invariant d <= |devices| && forall j :: 0 <= j < d ==> devices[j].identity != identity
    {
      d := d + 1;
    }
    assert FirstWith(devices, identity, d);
  }

  lemma {:induction false} LeadsNowhere(s: System, now: nat, pc: Pc)
    ensures Leads(s, now, pc, now, pc)
  {
  }

  lemma {:induction false} LeadsForward(s: System, now: nat, pc: Pc, later: nat, end: Pc)
    requires Leads(s, now, pc, later, end)
    ensures now <= later
  {
  }

  /**
   * From every reachable state, a validation run alone succeeds if and only if its handle names this view, an
   * identity and that device's committed generation, the view and the gate are open, control and fence latch are
   * even, and the device is open with an ONLINE fence for that identity; it changes nothing, and otherwise it is
   * answered by the first thing that is wrong.
   */
  lemma {:induction false} ValidatesIff(s: System, a: nat, h: Handle) returns (n: nat, end: Pc)
    requires SystemInv(s) && a < |s.actors| && s.actors[a] == Idle
    ensures Schedulable(s, Solo(a, Validate(h), n)) && |Solo(a, Validate(h), n)| == n + 1
    ensures Run(s, Solo(a, Validate(h), n))[n + 1] == Put(s, a, end, n + 1)
    ensures end.Returned? || end.Validated?
    ensures end.Validated? <==> Acceptable(s, h)
    ensures end.Validated? ==>
      && end.r.handle == h && end.r.d < |s.devices| && FirstWith(s.devices, h.identity, end.r.d)
      && Serves(s.devices[end.r.d], h) && end.r.fence == s.devices[end.r.d].fence
    ensures end.Returned? ==> end.status != Success && Answered(s, h, end.status)
  {
    hide Steps, Begin, Answered, Acceptable, Serves, Local, PairInv, ActorInv, Put, Run, SystemStep, ActorStep;
    forall d | 0 <= d < |s.devices| ensures |s.devices[d].fence| == FENCE_WORDS {
      assert DeviceInv(s.devices[d]);
    }
    n, end := CallEnds(s, h);
    SoloRun(s, a, h, n);
  }
}
