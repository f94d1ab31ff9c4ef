// What close comes to when its actor runs alone.
module RegistryClosing {
  import opened RegistryProtocol
  import opened RegistryWriters

  function Shutdown(dev: Device): Device {
    if dev.word.state.Closed? && dev.word.generation == GENERATION_TERMINAL then dev
    else dev.(word := Word(GENERATION_TERMINAL, Closed, 0))
  }

  /** The first n devices are shut down for good. */
  function ShutDown(devices: seq<Device>, n: nat): seq<Device>
    requires n <= |devices|
  {
    seq(n, i requires 0 <= i < n => Shutdown(devices[i])) + devices[n..]
  }

  lemma {:induction false} DeviceCloses(s: System, a: nat, i: nat)
    requires a < |s.actors| && i < |s.devices| && s.actors[a] == Closing(CDeviceLoad(i))
    ensures Onward(s, a, 2)
         == s.(now := s.now + 2, devices := s.devices[i := Shutdown(s.devices[i])],
               actors := s.actors[a := Closing(CDeviceLoad(i + 1))])
  {
    var s1 := s.(now := s.now + 1, actors := s.actors[a := Closing(CDeviceClose(i, s.devices[i].word))]);
    assert s.devices[i := s.devices[i]] == s.devices;
    assert SystemStep(s, a, Stay) == s1;
    assert Onward(s1, a, 1) == Onward(SystemStep(s1, a, Stay), a, 0);
    assert s1.actors[a := Closing(CDeviceLoad(i + 1))] == s.actors[a := Closing(CDeviceLoad(i + 1))];
  }

  lemma {:induction false} DevicesClose(s: System, a: nat, before: seq<Device>, i: nat)
    requires a < |s.actors| && i <= |s.devices| == |before| && s.actors[a] == Closing(CDeviceLoad(i))
    requires s.devices == ShutDown(before, i)
    ensures Onward(s, a, 2 * (|before| - i) + 1)
         == s.(now := s.now + 2 * (|before| - i) + 1, devices := ShutDown(before, |before|),
               actors := s.actors[a := Closing(CControlLoad)])
    decreases |before| - i
  {
    if i < |before| {
      var s2 := s.(now := s.now + 2, devices := s.devices[i := Shutdown(s.devices[i])],
                   actors := s.actors[a := Closing(CDeviceLoad(i + 1))]);
      DeviceCloses(s, a, i);
      hide ActorStep, SystemStep, Onward, ShutDown;
      ShutDownNext(before, i);
      DevicesClose(s2, a, before, i + 1);
      OnwardAdds(s, a, 2, 2 * (|before| - i - 1) + 1);
      assert s2.actors[a := Closing(CControlLoad)] == s.actors[a := Closing(CControlLoad)];
    } else {
      var next := s.(now := s.now + 1, actors := s.actors[a := Closing(CControlLoad)]);
      NoDeviceLeft(s, a);
      assert Onward(next, a, 0) == next;
    }
  }

  lemma {:induction false} ShutDownNext(devices: seq<Device>, i: nat)
    requires i < |devices|
    ensures |ShutDown(devices, i)| == |devices| && ShutDown(devices, i)[i] == devices[i]
    ensures ShutDown(devices, i)[i := Shutdown(devices[i])] == ShutDown(devices, i + 1)
  {
    hide Shutdown;
    var now, next := ShutDown(devices, i)[i := Shutdown(devices[i])], ShutDown(devices, i + 1);
    assert |now| == |next| && forall j :: 0 <= j < |now| ==> now[j] == next[j];
  }

  lemma {:induction false} NoDeviceLeft(s: System, a: nat)
    requires a < |s.actors| && s.actors[a] == Closing(CDeviceLoad(|s.devices|))
    ensures SystemStep(s, a, Stay) == s.(now := s.now + 1, actors := s.actors[a := Closing(CControlLoad)])
  {
  }

  /** The view's words after the control latch was tried. */
  function ControlShut(g: Globals): Globals {
    if Odd(g.controlLatch) || Spent(g.controlLatch) then
      g.(view := ViewWord(VIEW_GENERATION_TERMINAL, ViewQuarantined))
    else
      g.(view := ViewWord(VIEW_GENERATION_TERMINAL, ViewTerminal), gate := GATE_TERMINAL, terminal := 1,
         controlLatch := g.controlLatch + 2)
  }

  lemma {:induction false} CloserStep(s: System, a: nat, cp: CloserPoint)
    requires a < |s.actors| && s.actors[a] == Closing(cp) && !cp.CDeviceLoad? && !cp.CDeviceClose?
    ensures
      var e := CloseStep(s.g, At(s.devices, 0), |s.devices|, cp);
      SystemStep(s, a, Stay) == s.(now := s.now + 1, g := e.g, actors := s.actors[a := e.pc])
  {
    if |s.devices| > 0 { assert s.devices[0 := s.devices[0]] == s.devices; }
  }

  function Moved(s: System, a: nat, n: nat, g: Globals, pc: Pc): (r: System)
    requires a < |s.actors|
    ensures |r.actors| == |s.actors|
  {
    s.(now := s.now + n, g := g, actors := s.actors[a := pc])
  }

  lemma {:induction false} MovedStep(s: System, a: nat, n: nat, g: Globals, cp: CloserPoint)
    requires a < |s.actors| && !cp.CDeviceLoad? && !cp.CDeviceClose?
    ensures
      var e := CloseStep(g, At(s.devices, 0), |s.devices|, cp);
      Onward(Moved(s, a, n, g, Closing(cp)), a, 1) == Moved(s, a, n + 1, e.g, e.pc)
  {
    hide CloseStep, SystemStep;
    var s1 := Moved(s, a, n, g, Closing(cp));
    var e := CloseStep(g, At(s.devices, 0), |s.devices|, cp);
    CloserStep(s1, a, cp);
    assert s1.actors[a := e.pc] == s.actors[a := e.pc];
    assert Onward(s1, a, 1) == Onward(SystemStep(s1, a, Stay), a, 0);
  }

  /** With the control latch held. */
  lemma {:induction false} HeldCloses(s: System, a: nat, n: nat, g: Globals, even: nat)
    requires a < |s.actors|
    ensures Onward(Moved(s, a, n, g, Closing(CGate(even))), a, 4)
         == Moved(s, a, n + 4,
                  g.(view := ViewWord(VIEW_GENERATION_TERMINAL, ViewTerminal), gate := GATE_TERMINAL, terminal := 1,
                     controlLatch := even + 2), Returned(Success))
  {
    hide Onward, Moved;
    var g2 := g.(gate := GATE_TERMINAL);
    var g3 := g2.(terminal := 1);
    var g4 := g3.(controlLatch := even + 2);
    var s0 := Moved(s, a, n, g, Closing(CGate(even)));
    MovedStep(s, a, n, g, CGate(even));
    MovedStep(s, a, n + 1, g2, CTerminal(even));
    MovedStep(s, a, n + 2, g3, CControlRelease(even));
    MovedStep(s, a, n + 3, g4, CFinish);
    OnwardAdds(s0, a, 1, 1);
    OnwardAdds(s0, a, 2, 1);
    OnwardAdds(s0, a, 3, 1);
  }

  lemma {:induction false} NotMoved(s: System, a: nat)
    requires a < |s.actors|
    ensures Moved(s, a, 0, s.g, s.actors[a]) == s
  {
    assert s.actors[a := s.actors[a]] == s.actors;
  }

  /** Trying the control latch, and what follows. */
  lemma {:induction false} ControlCloses(s: System, a: nat) returns (n: nat)
    requires a < |s.actors| && s.actors[a] == Closing(CControlLoad)
    ensures
      var status := if Odd(s.g.controlLatch) || Spent(s.g.controlLatch) then Retry else Success;
      Onward(s, a, n) == Moved(s, a, n, ControlShut(s.g), Returned(status))
  {
    hide Onward, Moved;
    var g, even := s.g, s.g.controlLatch;
    NotMoved(s, a);
    MovedStep(s, a, 0, g, CControlLoad);
    if Odd(even) || Spent(even) {
      MovedStep(s, a, 1, g, CQuarantine);
      OnwardAdds(s, a, 1, 1);
      n := 2;
    } else {
      MovedStep(s, a, 1, g, CControlTake(even));
      HeldCloses(s, a, 2, g.(controlLatch := even + 1), even);
      OnwardAdds(s, a, 1, 1);
      OnwardAdds(s, a, 2, 4);
      n := 6;
    }
  }

  /** The call, the load of the view's word and the exchange. */
  lemma {:induction false} ViewCloses(s: System, a: nat)
    requires a < |s.actors| && s.actors[a] == Idle
    ensures
      var s1 := SystemStep(s, a, Close);
      && |s1.actors| == |s.actors|
      && Onward(s1, a, 2)
         == if s.g.view.state.ViewTerminal? || s.g.view.state.ViewQuarantined? then
              Moved(s, a, 3, s.g, Returned(Success))
            else
              Moved(s, a, 3, s.g.(view := ViewWord(VIEW_GENERATION_TERMINAL, ViewClosing)), Closing(CDeviceLoad(0)))
  {
    var s1 := Moved(s, a, 1, s.g, Closing(CLoad));
    assert SystemStep(s, a, Close) == s1 by {
      if |s.devices| > 0 { assert s.devices[0 := s.devices[0]] == s.devices; }
    }
    hide Onward, SystemStep;
    MovedStep(s, a, 1, s.g, CLoad);
    MovedStep(s, a, 2, s.g, CClose(s.g.view));
    OnwardAdds(s1, a, 1, 1);
  }

  lemma {:induction false} SameShut(g: Globals, closing: Globals)
    requires closing == g.(view := closing.view)
    ensures ControlShut(closing) == ControlShut(g)
  {
  }

  lemma {:induction false} MovedTwice(s: System, a: nat, m: nat, g: Globals, devices: seq<Device>, k: nat, g2: Globals)
    requires a < |s.actors|
    ensures
      var middle := Moved(s, a, m, g, Closing(CControlLoad)).(devices := devices);
      forall pc :: Moved(middle, a, k, g2, pc) == Moved(s, a, m + k, g2, pc).(devices := devices)
  {
    var middle := Moved(s, a, m, g, Closing(CControlLoad)).(devices := devices);
    forall pc ensures Moved(middle, a, k, g2, pc) == Moved(s, a, m + k, g2, pc).(devices := devices) {
      assert middle.actors[a := pc] == s.actors[a := pc];
    }
  }

  /**
   * close run alone: a view that is terminal or quarantined is left as it is; otherwise every device is shut down for
   * good and the view ends terminal, or quarantined when the control latch is not to be had.
   */
  lemma {:induction false} ClosesAlone(s: System, a: nat) returns (n: nat)
    requires a < |s.actors| && s.actors[a] == Idle
    ensures
      var r := CallAlone(s, a, Close, n);
      if s.g.view.state.ViewTerminal? || s.g.view.state.ViewQuarantined? then
        r == Moved(s, a, n + 1, s.g, Returned(Success))
      else
        var status := if Odd(s.g.controlLatch) || Spent(s.g.controlLatch) then Retry else Success;
        r == Moved(s, a, n + 1, ControlShut(s.g), Returned(status)).(devices := ShutDown(s.devices, |s.devices|))
  {
    hide Onward, SystemStep, ControlShut;
    var s1, view := SystemStep(s, a, Close), s.g.view;
    ViewCloses(s, a);
    if view.state.ViewTerminal? || view.state.ViewQuarantined? {
      n := 2;
    } else {
      var g := s.g.(view := ViewWord(VIEW_GENERATION_TERMINAL, ViewClosing));
      var s3 := Moved(s, a, 3, g, Closing(CDeviceLoad(0)));
      var m := 2 * |s.devices| + 1;
      var s4 := Moved(s, a, 3 + m, g, Closing(CControlLoad)).(devices := ShutDown(s.devices, |s.devices|));
      assert ShutDown(s.devices, 0) == s.devices;
      DevicesClose(s3, a, s.devices, 0);
      assert s3.actors[a := Closing(CControlLoad)] == s4.actors;
      OnwardAdds(s1, a, 2, m);
      var k := ControlCloses(s4, a);
      OnwardAdds(s1, a, 2 + m, k);
      n := 2 + m + k;
      SameShut(s.g, g);
      MovedTwice(s, a, 3 + m, g, ShutDown(s.devices, |s.devices|), k, ControlShut(s.g));
    }
  }
}
