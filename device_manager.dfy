/**
 * `DLNADeviceManager`: the list of media renderers the control point has
 * discovered, the device the user chose, and the search thread that keeps
 * the control point searching for five seconds. Changes are announced by
 * messages queued on the main handler, which forwards them to the listener
 * when one is registered.
 */
module DeviceManager {
  import opened JavaText
  import opened Upnp

  const MEDIA_RENDERER := "urn:schemas-upnp-org:device:MediaRenderer:1"
  /** How long one search thread keeps searching, in milliseconds. */
  const SEARCH_WINDOW_MS := 5000
  /** The pause between two searches, in milliseconds. */
  const SEARCH_PAUSE_MS := 300

  /** `isMediaRenderDevice`: present, and of the MediaRenderer type up to ASCII case. */
  predicate IsMediaRenderDevice(d: Option<Device>)
  {
    d.Some? && EqualsIgnoreCase(MEDIA_RENDERER, d.value.deviceType)
  }

  /**
   * The filter rejects a missing device, accepts the MediaRenderer type in
   * any letter case, and so passes a device exactly when it passes every
   * device whose type differs from its own only in case.
   */
  lemma MediaRenderFilter(d: Device, t: string)
    requires EqualsIgnoreCase(d.deviceType, t)
    ensures !IsMediaRenderDevice(None)
    ensures IsMediaRenderDevice(Some(d)) <==> IsMediaRenderDevice(Some(d.(deviceType := t)))
    ensures IsMediaRenderDevice(Some(d)) ==> |d.deviceType| == |MEDIA_RENDERER|
  {
    EqualsIgnoreCaseIsEquivalence(MEDIA_RENDERER, d.deviceType, t);
    EqualsIgnoreCaseIsEquivalence(d.deviceType, t, MEDIA_RENDERER);
    EqualsIgnoreCaseIsEquivalence(MEDIA_RENDERER, t, d.deviceType);
    EqualsIgnoreCaseIsEquivalence(t, d.deviceType, MEDIA_RENDERER);
  }

  /** The position of the first listed device whose UDN equals `udn` up to case, or -1. */
  function FirstUdnMatch(list: seq<Device>, udn: string): (i: int)
    ensures -1 <= i < |list|
    ensures i >= 0 ==> EqualsIgnoreCase(udn, list[i].udn)
    ensures i >= 0 ==> forall j :: 0 <= j < i ==> !EqualsIgnoreCase(udn, list[j].udn)
    ensures i == -1 <==> forall j :: 0 <= j < |list| ==> !EqualsIgnoreCase(udn, list[j].udn)
  {
    if list == [] then -1
    else if EqualsIgnoreCase(udn, list[0].udn) then 0
    else
      var k := FirstUdnMatch(list[1..], udn);
      if k < 0 then -1 else k + 1
  }

  /** The list after `deviceAdded(d)`: a renderer is appended, even when one with its UDN is listed. */
  function Added(list: seq<Device>, d: Device): seq<Device>
  {
    if IsMediaRenderDevice(Some(d)) then list + [d] else list
  }

  /** The list after `deviceRemoved(d)`: the first entry with `d`'s UDN (up to case) is taken out. */
  function Removed(list: seq<Device>, d: Device): seq<Device>
  {
    var i := FirstUdnMatch(list, d.udn);
    if IsMediaRenderDevice(Some(d)) && i >= 0 then list[..i] + list[i + 1..] else list
  }

  /** The first match is the position that matches with no match before it. */
  lemma FirstUdnMatchAt(list: seq<Device>, udn: string, i: nat)
    requires i < |list| && EqualsIgnoreCase(udn, list[i].udn)
    requires forall j :: 0 <= j < i ==> !EqualsIgnoreCase(udn, list[j].udn)
    ensures FirstUdnMatch(list, udn) == i
  {
  }

  /** Adding a renderer always grows the list by that renderer. */
  lemma AddedAppends(list: seq<Device>, d: Device)
    requires IsMediaRenderDevice(Some(d))
    ensures |Added(list, d)| == |list| + 1 && Added(list, d)[|list|] == d
    ensures multiset(Added(list, d)) == multiset(list) + multiset{d}
  {
  }

  /**
   * Removing takes out exactly one entry, the first UDN match, and keeps
   * the others in order; without a match the list is unchanged.
   */
  lemma RemovedTakesFirstMatch(list: seq<Device>, d: Device)
    requires IsMediaRenderDevice(Some(d))
    ensures var i := FirstUdnMatch(list, d.udn);
      i >= 0 ==>
        |Removed(list, d)| == |list| - 1 &&
        multiset(Removed(list, d)) + multiset{list[i]} == multiset(list) &&
        (forall j :: 0 <= j < i ==> Removed(list, d)[j] == list[j]) &&
        (forall j :: i <= j < |list| - 1 ==> Removed(list, d)[j] == list[j + 1])
    ensures FirstUdnMatch(list, d.udn) < 0 ==> Removed(list, d) == list
  {
    var i := FirstUdnMatch(list, d.udn);
    if i >= 0 {
      DropOne(list, i, Removed(list, d));
    }
  }

  /** Dropping entry `i` takes exactly that entry out and shifts the later ones down by one. */
  lemma DropOne(list: seq<Device>, i: nat, rest: seq<Device>)
    requires i < |list| && rest == list[..i] + list[i + 1..]
    ensures |rest| == |list| - 1
    ensures multiset(rest) + multiset{list[i]} == multiset(list)
    ensures forall j :: 0 <= j < i ==> rest[j] == list[j]
    ensures forall j :: i <= j < |list| - 1 ==> rest[j] == list[j + 1]
  {
    assert list == list[..i] + [list[i]] + list[i + 1..];
  }

  /** A device whose UDN matches no earlier entry is found at the end it was appended to. */
  lemma {:induction false} FirstUdnMatchAppend(list: seq<Device>, d: Device)
    requires forall j :: 0 <= j < |list| ==> !EqualsIgnoreCase(d.udn, list[j].udn)
    ensures FirstUdnMatch(list + [d], d.udn) == |list|
  {
    EqualsIgnoreCaseIsEquivalence(d.udn, d.udn, d.udn);
    if list != [] {
      assert (list + [d])[1..] == list[1..] + [d];
      FirstUdnMatchAppend(list[1..], d);
    }
  }

  /** Removing a renderer undoes adding it when no listed device shares its UDN. */
  lemma RemoveUndoesAdd(list: seq<Device>, d: Device)
    requires IsMediaRenderDevice(Some(d))
    requires forall j :: 0 <= j < |list| ==> !EqualsIgnoreCase(d.udn, list[j].udn)
    ensures Removed(Added(list, d), d) == list
  {
    FirstUdnMatchAppend(list, d);
    assert (list + [d])[..|list|] == list;
  }

  /** The main handler's messages (`MSG_SEARCH_STARTED`, `MSG_SEARCH_FINISHED`, `MSG_DEVICE_LIST_CHANGED`). */
  datatype Message = SearchStarted | SearchFinished | DeviceListChanged

  /** A listener callback; the list one carries the manager's list as it is when delivered. */
  datatype Notification = OnStarted | OnDeviceListChanged(list: seq<Device>) | OnFinished

  /**
   * What the search thread did with the control point, in order: a
   * `start()` with its outcome, a `search()`, a `Thread.sleep` of
   * `SEARCH_PAUSE_MS` milliseconds (marked when an interrupt ends it), and
   * the final `stop()`.
   */
  datatype Step = StartPoint(ok: bool) | SearchPoint | Sleep(interrupted: bool) | StopPoint

  /** The manager's `started` flag after `steps`, from `s0`: each start attempt sets it to its result. */
  function StartedAfter(s0: bool, steps: seq<Step>): bool
  {
    if steps == [] then s0
    else if steps[|steps| - 1].StartPoint? then steps[|steps| - 1].ok
    else StartedAfter(s0, steps[..|steps| - 1])
  }

  /**
   * What the search thread may do after the run `before`: start the control
   * point only while not started, search only while started, sleep only
   * right after a search, and nothing at all after an interrupted sleep.
   */
  predicate Permitted(s0: bool, before: seq<Step>, x: Step)
  {
    (before == [] || before[|before| - 1] != Sleep(true)) &&
    match x
    case StartPoint(_) => !StartedAfter(s0, before)
    case SearchPoint => StartedAfter(s0, before)
    case Sleep(_) => before != [] && before[|before| - 1].SearchPoint?
    case StopPoint => false
  }

  /** The search thread's discipline: every step is permitted by the steps before it. */
  predicate SearchDiscipline(s0: bool, steps: seq<Step>)
    decreases |steps|
  {
    steps == [] ||
    (SearchDiscipline(s0, steps[..|steps| - 1]) && Permitted(s0, steps[..|steps| - 1], steps[|steps| - 1]))
  }

  /** Extending a disciplined run by one permitted step. */
  lemma DisciplineAppend(s0: bool, steps: seq<Step>, x: Step)
    requires SearchDiscipline(s0, steps) && Permitted(s0, steps, x)
    ensures SearchDiscipline(s0, steps + [x])
    ensures StartedAfter(s0, steps + [x]) == if x.StartPoint? then x.ok else StartedAfter(s0, steps)
  {
    assert (steps + [x])[..|steps|] == steps;
  }

  /** In a disciplined run, each step was permitted when it was made. */
  lemma {:induction false} DisciplineEveryStep(s0: bool, steps: seq<Step>, i: nat)
    requires SearchDiscipline(s0, steps) && i < |steps|
    ensures Permitted(s0, steps[..i], steps[i])
    decreases |steps|
  {
    if i < |steps| - 1 {
      var init := steps[..|steps| - 1];
      DisciplineEveryStep(s0, init, i);
      assert init[..i] == steps[..i];
    }
  }

  /** Every sleep among `steps` was cut short by an interrupt. */
  predicate OnlyInterruptedSleeps(steps: seq<Step>)
  {
    forall i :: 0 <= i < |steps| && steps[i].Sleep? ==> steps[i] == Sleep(true)
  }

  /**
   * Step `x`, made as step `i`, agrees with the oracles: a start attempt
   * returned `startResult(i)`, and a sleep was interrupted exactly when the
   * flag was set or an interrupt arrived.
   */
  predicate StepAnswered(x: Step, i: nat, startResult: nat -> bool, interrupted: bool, interruptArrives: nat -> bool)
  {
    (x.StartPoint? ==> x.ok == startResult(i)) &&
    (x.Sleep? ==> x.interrupted == (interrupted || interruptArrives(i)))
  }

  /** Every step of `steps` agrees with the oracles. */
  predicate Answered(steps: seq<Step>, startResult: nat -> bool, interrupted: bool, interruptArrives: nat -> bool)
    decreases |steps|
  {
    steps == [] ||
    (Answered(steps[..|steps| - 1], startResult, interrupted, interruptArrives) &&
     StepAnswered(steps[|steps| - 1], |steps| - 1, startResult, interrupted, interruptArrives))
  }

  /** In a run that agrees with the oracles, each step does. */
  lemma {:induction false} AnsweredEveryStep(steps: seq<Step>, startResult: nat -> bool, interrupted: bool, interruptArrives: nat -> bool, i: nat)
    requires Answered(steps, startResult, interrupted, interruptArrives) && i < |steps|
    ensures steps[i].StartPoint? ==> steps[i].ok == startResult(i)
    ensures steps[i].Sleep? ==> steps[i].interrupted == (interrupted || interruptArrives(i))
    decreases |steps|
  {
    if i < |steps| - 1 {
      var init := steps[..|steps| - 1];
      AnsweredEveryStep(init, startResult, interrupted, interruptArrives, i);
      assert init[i] == steps[i];
    }
  }

  /**
   * `ps` is exactly `n` passes of the loop body, one after another: each
   * pass is a single start attempt `[StartPoint(_)]`, or one search followed
   * by one sleep `[SearchPoint, Sleep(_)]`.
   */
  predicate Passes(ps: seq<Step>, n: nat)
    decreases |ps|
  {
    if ps == [] then n == 0
    else if ps[|ps| - 1].StartPoint? then n > 0 && Passes(ps[..|ps| - 1], n - 1)
    else
      |ps| >= 2 && ps[|ps| - 1].Sleep? && ps[|ps| - 2] == SearchPoint &&
      n > 0 && Passes(ps[..|ps| - 2], n - 1)
  }

  /** A start attempt after `n` passes makes `n + 1` passes. */
  lemma PassesAddStart(ps: seq<Step>, n: nat, ok: bool)
    requires Passes(ps, n)
    ensures Passes(ps + [StartPoint(ok)], n + 1)
  {
    assert (ps + [StartPoint(ok)])[..|ps|] == ps;
  }

  /** A search and a sleep after `n` passes make `n + 1` passes. */
  lemma PassesAddSearch(ps: seq<Step>, n: nat, woken: bool)
    requires Passes(ps, n)
    ensures Passes(ps + [SearchPoint, Sleep(woken)], n + 1)
  {
    var q := ps + [SearchPoint, Sleep(woken)];
    assert q[..|q| - 2] == ps;
  }

  /** When the interrupt flag was set beforehand, every sleep of an agreeing run was interrupted. */
  lemma AnsweredInterrupted(steps: seq<Step>, startResult: nat -> bool, interruptArrives: nat -> bool)
    requires Answered(steps, startResult, true, interruptArrives)
    ensures OnlyInterruptedSleeps(steps)
  {
    forall i | 0 <= i < |steps| && steps[i].Sleep?
      ensures steps[i] == Sleep(true)
    {
      AnsweredEveryStep(steps, startResult, true, interruptArrives, i);
    }
  }

  lemma AnsweredAppend(steps: seq<Step>, x: Step, startResult: nat -> bool, interrupted: bool, interruptArrives: nat -> bool)
    requires Answered(steps, startResult, interrupted, interruptArrives)
    requires StepAnswered(x, |steps|, startResult, interrupted, interruptArrives)
    ensures Answered(steps + [x], startResult, interrupted, interruptArrives)
  {
    assert (steps + [x])[..|steps|] == steps;
  }

  /** The loop tests `1 .. k-1` all found the elapsed time within the window. */
  predicate WithinWindowBefore(clock: seq<int>, k: nat)
    requires k <= |clock| && clock != []
  {
    k <= 1 || (WithinWindowBefore(clock, k - 1) && clock[k - 1] - clock[0] <= SEARCH_WINDOW_MS)
  }

  /** Each of the loop tests `1 .. k-1` found the elapsed time within the window. */
  lemma {:induction false} WithinWindowEvery(clock: seq<int>, k: nat)
    requires k <= |clock| && clock != [] && WithinWindowBefore(clock, k)
    ensures forall j :: 1 <= j < k ==> clock[j] - clock[0] <= SEARCH_WINDOW_MS
  {
    if k > 1 {
      WithinWindowEvery(clock, k - 1);
    }
  }

  /** One permitted step that agrees with the oracles extends a disciplined, agreeing run. */
  lemma StepAppend(s0: bool, steps: seq<Step>, x: Step, startResult: nat -> bool, interrupted: bool, interruptArrives: nat -> bool)
    requires steps != [] && SearchDiscipline(s0, steps) && Permitted(s0, steps, x)
    requires Answered(steps, startResult, interrupted, interruptArrives)
    requires StepAnswered(x, |steps|, startResult, interrupted, interruptArrives)
    ensures SearchDiscipline(s0, steps + [x]) && Answered(steps + [x], startResult, interrupted, interruptArrives)
    ensures StartedAfter(s0, steps + [x]) == if x.StartPoint? then x.ok else StartedAfter(s0, steps)
  {
    DisciplineAppend(s0, steps, x);
    AnsweredAppend(steps, x, startResult, interrupted, interruptArrives);
  }

  /** A start attempt extends a disciplined, answered run that is not started. */
  lemma StartRoundSteps(s0: bool, steps: seq<Step>, startResult: nat -> bool, interrupted: bool, interruptArrives: nat -> bool, n: nat)
    requires steps != [] && SearchDiscipline(s0, steps) && steps[|steps| - 1] != Sleep(true) && !StartedAfter(s0, steps)
    requires Answered(steps, startResult, interrupted, interruptArrives) && Passes(steps[1..], n)
    ensures var next := steps + [StartPoint(startResult(|steps|))];
      SearchDiscipline(s0, next) && StartedAfter(s0, next) == startResult(|steps|) &&
      Answered(next, startResult, interrupted, interruptArrives) &&
      Passes(next[1..], n + 1)
  {
    var x := StartPoint(startResult(|steps|));
    StepAppend(s0, steps, x, startResult, interrupted, interruptArrives);
    assert (steps + [x])[1..] == steps[1..] + [x];
    PassesAddStart(steps[1..], n, x.ok);
  }

  /** A search and a sleep extend a disciplined, answered run that is started. */
  lemma SearchSleepSteps(s0: bool, steps: seq<Step>, startResult: nat -> bool, interrupted: bool, interruptArrives: nat -> bool, n: nat)
    requires steps != [] && SearchDiscipline(s0, steps) && steps[|steps| - 1] != Sleep(true) && StartedAfter(s0, steps)
    requires Answered(steps, startResult, interrupted, interruptArrives) && Passes(steps[1..], n)
    ensures var woken := interrupted || interruptArrives(|steps| + 1);
      var next := steps + [SearchPoint, Sleep(woken)];
      SearchDiscipline(s0, next) && StartedAfter(s0, next) &&
      Answered(next, startResult, interrupted, interruptArrives) &&
      Passes(next[1..], n + 1)
  {
    var woken := interrupted || interruptArrives(|steps| + 1);
    StepAppend(s0, steps, SearchPoint, startResult, interrupted, interruptArrives);
    var searched := steps + [SearchPoint];
    StepAppend(s0, searched, Sleep(woken), startResult, interrupted, interruptArrives);
    assert searched + [Sleep(woken)] == steps + [SearchPoint, Sleep(woken)];
    assert (steps + [SearchPoint, Sleep(woken)])[1..] == steps[1..] + [SearchPoint, Sleep(woken)];
    PassesAddSearch(steps[1..], n, woken);
  }

  /** The run's first step, a start attempt or a search, begins a disciplined, agreeing run with no loop pass after it. */
  lemma FirstStep(s0: bool, startResult: nat -> bool, interrupted: bool, interruptArrives: nat -> bool)
    ensures var first := if s0 then SearchPoint else StartPoint(startResult(0));
      SearchDiscipline(s0, [first]) && Answered([first], startResult, interrupted, interruptArrives) &&
      [first][|[first]| - 1] != Sleep(true) && Passes([first][1..], 0)
  {
    var first := if s0 then SearchPoint else StartPoint(startResult(0));
    DisciplineAppend(s0, [], first);
    assert [] + [first] == [first];
    AnsweredAppend([], first, startResult, interrupted, interruptArrives);
    assert [first][1..] == [];
  }

  /**
   * One pass of the search loop's body after the disciplined run `steps`:
   * a start attempt, answered by `startResult`, while not started;
   * otherwise a search followed by a sleep, interrupted when the flag is
   * set or an interrupt arrives. `thrown` says that the sleep's
   * `InterruptedException` ends the loop.
   */
  method SearchRound(s0: bool, steps: seq<Step>, startResult: nat -> bool, interrupted: bool, interruptArrives: nat -> bool, n: nat)
    returns (next: seq<Step>, thrown: bool)
    requires steps != [] && SearchDiscipline(s0, steps) && steps[|steps| - 1] != Sleep(true)
    requires Answered(steps, startResult, interrupted, interruptArrives) && Passes(steps[1..], n)
    ensures next != [] && SearchDiscipline(s0, next) && next[0] == steps[0]
    ensures !StartedAfter(s0, steps) ==> next == steps + [StartPoint(startResult(|steps|))] && !thrown
    ensures StartedAfter(s0, steps) ==>
      var woken := interrupted || interruptArrives(|steps| + 1);
      next == steps + [SearchPoint, Sleep(woken)] && thrown == woken
    ensures StartedAfter(s0, next) == (StartedAfter(s0, steps) || startResult(|steps|))
    ensures thrown <==> next[|next| - 1] == Sleep(true)
    ensures Answered(next, startResult, interrupted, interruptArrives)
    ensures Passes(next[1..], n + 1)
  {
    if !StartedAfter(s0, steps) {
      StartRoundSteps(s0, steps, startResult, interrupted, interruptArrives, n);
      next, thrown := steps + [StartPoint(startResult(|steps|))], false;
    } else {
      SearchSleepSteps(s0, steps, startResult, interrupted, interruptArrives, n);
      var woken := interrupted || interruptArrives(|steps| + 1);
      next, thrown := steps + [SearchPoint, Sleep(woken)], woken;
    }
  }

  /**
   * The body of `SearchThread.run` up to its `finally`: the steps it makes
   * from the `started` flag `s0` and the interrupt flag `interrupted`.
   * `clock` holds the readings of the elapsed-time clock: `clock[0]` is
   * taken at the start and `clock[j]` by the `j`-th loop test; its last
   * reading is past the five-second window, so the loop ends by then.
   * `startResult(n)` is what a start attempt made as step `n` returns;
   * `interruptArrives(n)` says whether another thread interrupts the sleep
   * made as step `n`. `readings` is the index of the last reading taken:
   * every earlier loop test was within the window, and the last one was
   * past it unless the run ended in an interrupted sleep.
   */
  method SearchSteps(s0: bool, interrupted: bool, clock: seq<int>, startResult: nat -> bool, interruptArrives: nat -> bool)
    returns (steps: seq<Step>, readings: nat)
    requires |clock| >= 2 && clock[|clock| - 1] - clock[0] > SEARCH_WINDOW_MS
    ensures steps != [] && SearchDiscipline(s0, steps)
    ensures steps[0] == if s0 then SearchPoint else StartPoint(startResult(0))
    ensures Answered(steps, startResult, interrupted, interruptArrives)
    ensures interrupted ==> OnlyInterruptedSleeps(steps)
    ensures 1 <= readings < |clock|
    ensures forall j :: 1 <= j < readings ==> clock[j] - clock[0] <= SEARCH_WINDOW_MS
    ensures steps[|steps| - 1] == Sleep(true) ==> clock[readings] - clock[0] <= SEARCH_WINDOW_MS
    ensures steps[|steps| - 1] != Sleep(true) ==> clock[readings] - clock[0] > SEARCH_WINDOW_MS
    ensures Passes(steps[1..], if steps[|steps| - 1] == Sleep(true) then readings else readings - 1)
  {
    var first := if s0 then SearchPoint else StartPoint(startResult(0));
    FirstStep(s0, startResult, interrupted, interruptArrives);
    steps := [first];
    var k := 1;
    var thrown := false;
    while !thrown && clock[k] - clock[0] <= SEARCH_WINDOW_MS
      invariant 1 <= k < |clock|
      invariant steps != [] && SearchDiscipline(s0, steps) && steps[0] == first
      invariant thrown <==> steps[|steps| - 1] == Sleep(true)
      invariant Answered(steps, startResult, interrupted, interruptArrives)
      invariant WithinWindowBefore(clock, k)
      invariant thrown ==> clock[k] - clock[0] <= SEARCH_WINDOW_MS
      invariant Passes(steps[1..], if thrown then k else k - 1)
      decreases |clock| - k, !thrown
    {
      steps, thrown := SearchRound(s0, steps, startResult, interrupted, interruptArrives, k - 1);
      if !thrown {
        k := k + 1;
      }
    }
    readings := k;
    WithinWindowEvery(clock, k);
    if interrupted {
      AnsweredInterrupted(steps, startResult, interruptArrives);
    }
  }

  class SearchThread {
    /** `Thread.start()` has been called on this thread. */
    var startCalled: bool
    /** The thread's interrupt flag. */
    var interrupted: bool

    constructor()
      ensures !startCalled && !interrupted
    {
      startCalled := false;
      interrupted := false;
    }
  }

  class DLNADeviceManager {
    /** Whether the control point was started successfully; nothing resets it. */
    var started: bool
    var deviceList: seq<Device>
    var thread: SearchThread?
    /** `mListener != null`. */
    var hasListener: bool
    var currentDevice: Option<Device>
    /** Messages queued on the main handler, oldest first. */
    var messages: seq<Message>
    /** Callbacks delivered to the listener so far. */
    var notifications: seq<Notification>
    /** Every request made of the control point so far. */
    var activity: seq<Step>

    constructor()
      ensures !started && deviceList == [] && thread == null && !hasListener && currentDevice == None
      ensures messages == [] && notifications == [] && activity == []
    {
      started := false;
      deviceList := [];
      thread := null;
      hasListener := false;
      currentDevice := None;
      messages := [];
      notifications := [];
      activity := [];
    }

    method SetCurrentDevice(d: Option<Device>)
      modifies this
      ensures currentDevice == d
      ensures started == old(started) && deviceList == old(deviceList) && thread == old(thread) && hasListener == old(hasListener)
      ensures messages == old(messages) && notifications == old(notifications) && activity == old(activity)
    {
      currentDevice := d;
    }

    method GetCurrentDevice() returns (d: Option<Device>)
      ensures d == currentDevice
    {
      d := currentDevice;
    }

    /**
     * `deviceAdded`: a renderer is appended and one list-changed message is
     * queued; the scan for an equal UDN that precedes it has no effect.
     */
    method DeviceAdded(d: Device)
      modifies this
      ensures deviceList == Added(old(deviceList), d)
      ensures messages == old(messages) + (if IsMediaRenderDevice(Some(d)) then [DeviceListChanged] else [])
      ensures started == old(started) && thread == old(thread) && hasListener == old(hasListener)
      ensures currentDevice == old(currentDevice) && notifications == old(notifications) && activity == old(activity)
    {
      if IsMediaRenderDevice(Some(d)) {
        var i := 0;
        while i < |deviceList| && !EqualsIgnoreCase(d.udn, deviceList[i].udn)
          invariant 0 <= i <= |deviceList|
          invariant deviceList == old(deviceList) && messages == old(messages)
          invariant forall j :: 0 <= j < i ==> !EqualsIgnoreCase(d.udn, deviceList[j].udn)
        {
          i := i + 1;
        }
        deviceList := deviceList + [d];
        messages := messages + [DeviceListChanged];
      }
    }

    /**
     * `deviceRemoved`: the first entry with the device's UDN is taken out
     * and one list-changed message is queued; the chosen device is dropped
     * when its UDN matches the removed entry's.
     */
    method DeviceRemoved(d: Device)
      modifies this
      ensures deviceList == Removed(old(deviceList), d)
      ensures var i := FirstUdnMatch(old(deviceList), d.udn);
        if IsMediaRenderDevice(Some(d)) && i >= 0 then
          messages == old(messages) + [DeviceListChanged] &&
          currentDevice == (if old(currentDevice).Some? && EqualsIgnoreCase(old(currentDevice).value.udn, old(deviceList)[i].udn)
                            then None else old(currentDevice))
        else messages == old(messages) && currentDevice == old(currentDevice)
      ensures started == old(started) && thread == old(thread) && hasListener == old(hasListener)
      ensures notifications == old(notifications) && activity == old(activity)
    {
      if IsMediaRenderDevice(Some(d)) {
        var i := 0;
        while i < |deviceList|
          invariant 0 <= i <= |deviceList|
          invariant deviceList == old(deviceList) && messages == old(messages) && currentDevice == old(currentDevice)
          invariant forall j :: 0 <= j < i ==> !EqualsIgnoreCase(d.udn, deviceList[j].udn)
        {
          if EqualsIgnoreCase(d.udn, deviceList[i].udn) {
            FirstUdnMatchAt(deviceList, d.udn, i);
            var removed := deviceList[i];
            deviceList := deviceList[..i] + deviceList[i + 1..];
            messages := messages + [DeviceListChanged];
            if currentDevice.Some? && EqualsIgnoreCase(currentDevice.value.udn, removed.udn) {
              currentDevice := None;
            }
            return;
          }
          i := i + 1;
        }
      }
    }

    /**
     * `startDiscovery`: registers the listener, creates a search thread when
     * there is none and starts it. Starting a thread that was already
     * started throws (`IllegalThreadStateException`) before the started
     * message is queued; `thrown` reports that.
     */
    method StartDiscovery(listener: bool) returns (thrown: bool)
      modifies this, thread
      ensures hasListener == listener
      ensures thread != null && thread.startCalled
      ensures old(thread) == null ==> fresh(thread) && !thread.interrupted
      ensures old(thread) != null ==> thread == old(thread) && thread.interrupted == old(thread.interrupted)
      ensures thrown <==> old(thread) != null && old(thread.startCalled)
      ensures messages == old(messages) + (if thrown then [] else [SearchStarted])
      ensures started == old(started) && deviceList == old(deviceList) && currentDevice == old(currentDevice)
      ensures notifications == old(notifications) && activity == old(activity)
    {
      hasListener := listener;
      if thread == null {
        thread := new SearchThread();
      }
      if thread.startCalled {
        return true;
      }
      thread.startCalled := true;
      messages := messages + [SearchStarted];
      return false;
    }

    /** `stopDiscovery`: interrupts the search thread, if any, and stops the control point. */
    method StopDiscovery()
      modifies this, thread
      ensures thread == old(thread) && (thread != null ==> thread.interrupted && thread.startCalled == old(thread.startCalled))
      ensures activity == old(activity) + [StopPoint]
      ensures started == old(started) && deviceList == old(deviceList) && currentDevice == old(currentDevice)
      ensures hasListener == old(hasListener) && messages == old(messages) && notifications == old(notifications)
    {
      if thread != null {
        thread.interrupted := true;
      }
      activity := activity + [StopPoint];
    }

    /**
     * `SearchThread.run` for thread `t`: the steps of `SearchSteps`, then
     * the `finally` block. Whatever ends the run, the thread that is still
     * the manager's current one clears it and queues the finished message.
     */
    method RunSearch(t: SearchThread, clock: seq<int>, startResult: nat -> bool, interruptArrives: nat -> bool)
      returns (steps: seq<Step>, readings: nat)
      requires |clock| >= 2 && clock[|clock| - 1] - clock[0] > SEARCH_WINDOW_MS
      modifies this, t
      ensures steps != [] && SearchDiscipline(old(started), steps)
      ensures steps[0] == if old(started) then SearchPoint else StartPoint(startResult(0))
      ensures started == StartedAfter(old(started), steps)
      ensures Answered(steps, startResult, old(t.interrupted), interruptArrives)
      ensures 1 <= readings < |clock|
      ensures forall j :: 1 <= j < readings ==> clock[j] - clock[0] <= SEARCH_WINDOW_MS
      ensures steps[|steps| - 1] == Sleep(true) ==> clock[readings] - clock[0] <= SEARCH_WINDOW_MS
      ensures steps[|steps| - 1] != Sleep(true) ==> clock[readings] - clock[0] > SEARCH_WINDOW_MS
      ensures Passes(steps[1..], if steps[|steps| - 1] == Sleep(true) then readings else readings - 1)
      ensures activity == old(activity) + steps
      ensures old(t.interrupted) ==> OnlyInterruptedSleeps(steps)
      ensures Sleep(true) in steps ==> !t.interrupted
      ensures Sleep(true) !in steps ==> t.interrupted == old(t.interrupted)
      ensures t.startCalled == old(t.startCalled)
      ensures old(thread) == t ==> thread == null && messages == old(messages) + [SearchFinished]
      ensures old(thread) != t ==> thread == old(thread) && messages == old(messages)
      ensures deviceList == old(deviceList) && currentDevice == old(currentDevice)
      ensures hasListener == old(hasListener) && notifications == old(notifications)
    {
      steps, readings := SearchSteps(started, t.interrupted, clock, startResult, interruptArrives);
      started := StartedAfter(started, steps);
      activity := activity + steps;
      if Sleep(true) in steps {
        // The interrupted exception clears the interrupt flag.
        t.interrupted := false;
      }
      if thread == t {
        thread := null;
        messages := messages + [SearchFinished];
      }
    }

    /**
     * The main handler takes the oldest message. Without a listener it is
     * dropped; otherwise the listener gets the matching callback, the list
     * one with the list as it stands now.
     */
    method DispatchNext() returns (delivered: Option<Notification>)
      requires messages != []
      modifies this
      ensures messages == old(messages[1..])
      ensures !hasListener ==> delivered == None
      ensures hasListener ==> delivered == Some(match old(messages[0])
        case SearchStarted => OnStarted
        case DeviceListChanged => OnDeviceListChanged(deviceList)
        case SearchFinished => OnFinished)
      ensures notifications == old(notifications) + (if delivered.Some? then [delivered.value] else [])
      ensures started == old(started) && deviceList == old(deviceList) && thread == old(thread)
      ensures hasListener == old(hasListener) && currentDevice == old(currentDevice) && activity == old(activity)
    {
      var m := messages[0];
      messages := messages[1..];
      if !hasListener {
        return None;
      }
      var n := match m
        case SearchStarted => OnStarted
        case DeviceListChanged => OnDeviceListChanged(deviceList)
        case SearchFinished => OnFinished;
      notifications := notifications + [n];
      return Some(n);
    }
  }

  // ----------------------------------------------------------- scenarios

  function Renderer(udn: string): Device
  {
    Device(udn, "Renderer", MEDIA_RENDERER, map[])
  }

  lemma RendererIsMediaRenderDevice(udn: string)
    ensures IsMediaRenderDevice(Some(Renderer(udn)))
  {
    EqualsIgnoreCaseIsEquivalence(MEDIA_RENDERER, MEDIA_RENDERER, MEDIA_RENDERER);
  }

  /** The same renderer announced twice is listed twice. */
  method AddSameTwice() returns (count: nat)
    ensures count == 2
  {
    var m := new DLNADeviceManager();
    RendererIsMediaRenderDevice("uuid:tv");
    m.DeviceAdded(Renderer("uuid:tv"));
    m.DeviceAdded(Renderer("uuid:tv"));
    count := |m.deviceList|;
  }

  /** Both list-changed callbacks of two additions carry the list with both devices. */
  method ListDeliveredLive() returns (first: Option<Notification>, second: Option<Notification>)
    ensures first == second == Some(OnDeviceListChanged([Renderer("uuid:a"), Renderer("uuid:b")]))
  {
    var m := new DLNADeviceManager();
    var thrown := m.StartDiscovery(true);
    RendererIsMediaRenderDevice("uuid:a");
    RendererIsMediaRenderDevice("uuid:b");
    m.DeviceAdded(Renderer("uuid:a"));
    m.DeviceAdded(Renderer("uuid:b"));
    assert m.deviceList == [Renderer("uuid:a"), Renderer("uuid:b")];
    assert m.messages == [SearchStarted, DeviceListChanged, DeviceListChanged];
    var started := m.DispatchNext();
    assert m.messages == [DeviceListChanged, DeviceListChanged];
    first := m.DispatchNext();
    second := m.DispatchNext();
  }

  /** A second discovery while the first search thread still runs throws and queues nothing. */
  method RestartWhileSearching() returns (firstThrown: bool, secondThrown: bool, queued: nat)
    ensures !firstThrown && secondThrown && queued == 1
  {
    var m := new DLNADeviceManager();
    firstThrown := m.StartDiscovery(true);
    secondThrown := m.StartDiscovery(true);
    queued := |m.messages|;
  }
}
