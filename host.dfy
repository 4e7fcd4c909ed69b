/**
 * The host object: its lifecycle, selected tab, stored progress and
 * cancellation flag, updated in place by the key handlers and the event
 * loop. The channel and the threads are not modelled: the loop consumes a
 * given sequence of events, and each draw of the screen is counted.
 */
module HostApp {
  import opened AppState
  import opened HostSpec

  class Host {
    var state: HostState
    var tab: SelectedTab
    /** The last progress value received from a worker. */
    var progress: real
    /** The shared cancellation flag. */
    var cancel: bool
    /** How many workers still hold a handle to the flag. */
    var liveHandles: nat
    /** How many times the screen has been drawn. */
    var draws: nat

    /** The fields the state machine acts upon. */
    function View(): HostView
      reads this
    {
      HostView(state, tab, progress, cancel, liveHandles)
    }

    /** A new host: running on the first tab, no progress, flag clear, no worker. */
    constructor ()
      ensures state == Running && tab == DefaultTab() && progress == 0.0 && !cancel
      ensures liveHandles == 0 && draws == 0
    {
      state := Running;
      tab := Tab1;
      progress := 0.0;
      cancel := false;
      liveHandles := 0;
      draws := 0;
    }

    /** A key while running: quit, cancel, start a worker, or move the tab. */
    method HandleKeyEvent(key: KeyEvent)
      requires state == Running
      modifies this
      ensures View() == OnRunningKey(old(View()), key)
      ensures draws == old(draws)
    {
      if key.kind == Press {
        match key.code
        case Char('q') | Char('Q') =>
          state := ShuttingDown;
        case Char('c') | Char('C') =>
          cancel := true;
        case Char('r') | Char('R') =>
          if cancel {
            cancel := false;
          }
          // the new worker thread receives a weak handle to the flag
          liveHandles := liveHandles + 1;
        case Right =>
          tab := NextTab(tab);
        case Left =>
          tab := PrevTab(tab);
        case _ =>
      }
    }

    /**
     * A key while asking for confirmation. On y/Y the host waits for every
     * worker to drop its handle, raising the flag while one is live, then
     * completes; that wait is taken as a single step here.
     */
    method HandleShouldExit(key: KeyEvent)
      requires state == ShuttingDown
      modifies this
      ensures View() == OnShutdownKey(old(View()), key)
      ensures draws == old(draws)
      ensures state == Completed ==> liveHandles == 0
    {
      if key.kind == Press {
        match key.code
        case Char('y') | Char('Y') =>
          if liveHandles > 0 && !cancel {
            cancel := true;
          }
          // every worker observes the flag and ends, dropping its handle
          liveHandles := 0;
          state := Completed;
        case Char('n') | Char('N') =>
          state := Running;
        case _ =>
      }
    }

    /** One received event: keys go to the handler of the current state, progress is stored. */
    method HandleEvent(e: Event)
      modifies this
      ensures View() == OnEvent(old(View()), e)
      ensures draws == old(draws)
    {
      match e
      case KeyInput(key) =>
        match state {
          case Completed =>
          case Running => HandleKeyEvent(key);
          case ShuttingDown => HandleShouldExit(key);
        }
      case BackgroundTask(p) =>
        progress := p;
    }

    /** A worker thread ends and drops its handle (it saw the flag, or reached full progress). */
    method WorkerExited()
      requires liveHandles > 0
      modifies this
      ensures liveHandles == old(liveHandles) - 1
      ensures state == old(state) && tab == old(tab) && progress == old(progress)
      ensures cancel == old(cancel) && draws == old(draws)
    {
      liveHandles := liveHandles - 1;
    }

    /**
     * The event loop over what happens while it runs, in order: each event
     * received on the channel is applied and then drawn exactly once, and a
     * worker that ends by itself drops its handle. The loop stops as soon as
     * the state is `Completed`, and otherwise only when the inputs run out.
     */
    method Run(inputs: seq<Input>) returns (consumed: nat)
      modifies this
      ensures consumed <= |inputs|
      ensures View() == Trace(old(View()), inputs[..consumed])
      ensures draws == old(draws) + ReceivedCount(inputs[..consumed])
      ensures forall k :: 0 <= k < consumed ==> Trace(old(View()), inputs[..k]).state != Completed
      ensures consumed < |inputs| ==> state == Completed
    {
      ghost var start := View();
      consumed := 0;
      while state != Completed && consumed < |inputs|
        invariant consumed <= |inputs|
        invariant View() == Trace(start, inputs[..consumed])
        invariant draws == old(draws) + ReceivedCount(inputs[..consumed])
        invariant forall k :: 0 <= k < consumed ==> Trace(start, inputs[..k]).state != Completed
      {
        TraceStep(start, inputs, consumed);
        match inputs[consumed] {
          case Received(e) =>
            HandleEvent(e);
            draws := draws + 1;
          case WorkerEnds =>
            if liveHandles > 0 {
              WorkerExited();
            }
        }
        consumed := consumed + 1;
      }
    }
  }

  /**
   * Right, Right, Left, start a worker, a progress report of 0.5, cancel,
   * then the worker ends by itself, quit, confirm, and a last r that is
   * never reached. The run stops after the confirmation on the second tab,
   * with the last reported progress, the flag raised by c and no handle left,
   * having drawn once per received event.
   */
  method StartMoveRunCancelQuit()
  {
    var host := new Host();
    var inputs := [
      Received(KeyInput(Pressed(Right))), Received(KeyInput(Pressed(Right))),
      Received(KeyInput(Pressed(Left))), Received(KeyInput(Pressed(Char('r')))),
      Received(BackgroundTask(0.5)), Received(KeyInput(Pressed(Char('c')))), WorkerEnds,
      Received(KeyInput(Pressed(Char('q')))), Received(KeyInput(Pressed(Char('y')))),
      Received(KeyInput(Pressed(Char('r'))))];
    assert host.View() == Fresh();
    var n := host.Run(inputs);
    assert inputs[..0] == [];
    TraceStep(Fresh(), inputs, 0);
    assert Trace(Fresh(), inputs[..1]) == Fresh().(tab := Tab2);
    TraceStep(Fresh(), inputs, 1);
    assert Trace(Fresh(), inputs[..2]) == Fresh().(tab := Tab3);
    TraceStep(Fresh(), inputs, 2);
    assert Trace(Fresh(), inputs[..3]) == Fresh().(tab := Tab2);
    TraceStep(Fresh(), inputs, 3);
    assert Trace(Fresh(), inputs[..4]) == Fresh().(tab := Tab2, liveHandles := 1);
    TraceStep(Fresh(), inputs, 4);
    assert Trace(Fresh(), inputs[..5]) == Fresh().(tab := Tab2, liveHandles := 1, progress := 0.5);
    TraceStep(Fresh(), inputs, 5);
    assert Trace(Fresh(), inputs[..6]) == Fresh().(tab := Tab2, liveHandles := 1, progress := 0.5, cancel := true);
    TraceStep(Fresh(), inputs, 6);
    assert Trace(Fresh(), inputs[..7]) == Fresh().(tab := Tab2, progress := 0.5, cancel := true);
    TraceStep(Fresh(), inputs, 7);
    assert Trace(Fresh(), inputs[..8]) == Fresh().(tab := Tab2, progress := 0.5, cancel := true, state := ShuttingDown);
    TraceStep(Fresh(), inputs, 8);
    assert Trace(Fresh(), inputs[..9]) == Fresh().(tab := Tab2, progress := 0.5, cancel := true, state := Completed);
    assert n == 9;
    assert host.state == Completed && host.tab == Tab2 && host.progress == 0.5;
    assert host.cancel && host.liveHandles == 0 && host.draws == 8;
  }
}
