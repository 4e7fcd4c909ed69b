/**
 * The host's state machine as pure functions over a snapshot of its fields.
 * `liveHandles` stands for `Arc::weak_count` of the cancellation flag: the
 * number of worker threads that still hold a handle to it.
 */
module HostSpec {
  import opened Wrappers
  import opened AppState

  /** The host's fields that the state machine reads and writes. */
  datatype HostView = HostView(
    state: HostState,
    tab: SelectedTab,
    progress: real,
    cancel: bool,
    liveHandles: nat)

  /** Whether `code` is the character key `lower` or `upper`. */
  predicate IsLetter(code: KeyCode, lower: char, upper: char) {
    code == Char(lower) || code == Char(upper)
  }

  /** A key press of `code`. */
  function Pressed(code: KeyCode): KeyEvent {
    KeyEvent(code, Press)
  }

  function Min(a: int, b: int): int { if a <= b then a else b }

  function Max(a: int, b: int): int { if a >= b then a else b }

  /**
   * The Right arrow: the tab whose discriminant is one more, falling back to
   * the current tab when there is none. The fallback looks the current
   * discriminant up eagerly, and that lookup never fails.
   */
  function NextTab(t: SelectedTab): (r: SelectedTab)
    ensures Discriminant(r) == Min(Discriminant(t) + 1, TabCount - 1)
  {
    var cur := Discriminant(t);
    var next := cur + 1;
    var current := FromRepr(cur).value;
    match FromRepr(next)
    case Some(n) => n
    case None => current
  }

  /**
   * The Left arrow: the tab whose discriminant is one less, the subtraction
   * saturating at zero, with the same eager fallback to the current tab.
   */
  function PrevTab(t: SelectedTab): (r: SelectedTab)
    ensures Discriminant(r) == Max(Discriminant(t) - 1, 0)
  {
    var cur := Discriminant(t);
    var prev := if cur == 0 then 0 else cur - 1;
    var current := FromRepr(cur).value;
    match FromRepr(prev)
    case Some(p) => p
    case None => current
  }

  /** `handle_key_event`: a key while `Running`. */
  function OnRunningKey(v: HostView, key: KeyEvent): (r: HostView)
    ensures key.kind != Press ==> r == v
    ensures r.progress == v.progress
    ensures v.state == Running ==> r.state != Completed
    ensures r.liveHandles == v.liveHandles || r.liveHandles == v.liveHandles + 1
  {
    if key.kind != Press then v
    else
      match key.code
      case Char('q') | Char('Q') => v.(state := ShuttingDown)
      case Char('c') | Char('C') => v.(cancel := true)
      case Char('r') | Char('R') => v.(cancel := false, liveHandles := v.liveHandles + 1)
      case Right => v.(tab := NextTab(v.tab))
      case Left => v.(tab := PrevTab(v.tab))
      case _ => v
  }

  /**
   * `handle_should_exit`: a key while `ShuttingDown`. The confirmation waits
   * until no worker holds a handle, setting the flag while any does; the
   * wait itself is one abstract step.
   */
  function OnShutdownKey(v: HostView, key: KeyEvent): (r: HostView)
    ensures key.kind != Press ==> r == v
    ensures r.progress == v.progress && r.tab == v.tab
    ensures r.state == Completed && v.state != Completed ==> r.liveHandles == 0 && (v.liveHandles > 0 ==> r.cancel)
  {
    if key.kind != Press then v
    else
      match key.code
      case Char('y') | Char('Y') =>
        v.(state := Completed, cancel := v.cancel || v.liveHandles > 0, liveHandles := 0)
      case Char('n') | Char('N') => v.(state := Running)
      case _ => v
  }

  /** One event of the loop in `run`, dispatched on the lifecycle state. */
  function OnEvent(v: HostView, e: Event): (r: HostView)
    ensures e.BackgroundTask? ==> r.state == v.state && r.tab == v.tab && r.progress == e.progress
    ensures e.KeyInput? ==> r.progress == v.progress
  {
    match e
    case KeyInput(key) =>
      (match v.state
       case Completed => v
       case Running => OnRunningKey(v, key)
       case ShuttingDown => OnShutdownKey(v, key))
    case BackgroundTask(p) => v.(progress := p)
  }

  /** The view after applying `es` in order. */
  function Replay(v: HostView, es: seq<Event>): HostView
    decreases |es|
  {
    if es == [] then v else OnEvent(Replay(v, es[..|es| - 1]), es[|es| - 1])
  }

  // ---------------------------------------------------------------------
  // Tab movement

  /**
   * Independent reference for tab movement: a clamped walk over indices
   * 0..3, where a Right press steps up, a Left press steps down, and any
   * other event stays put.
   */
  function Walk(i: int, es: seq<Event>): int
    decreases |es|
  {
    if es == [] then i
    else
      var j := Walk(i, es[..|es| - 1]);
      if es[|es| - 1] == KeyInput(Pressed(Right)) then Min(j + 1, TabCount - 1)
      else if es[|es| - 1] == KeyInput(Pressed(Left)) then Max(j - 1, 0)
      else j
  }

  /** An arrow-key press. */
  predicate IsArrowPress(e: Event) {
    e == KeyInput(Pressed(Right)) || e == KeyInput(Pressed(Left))
  }

  /** A clamped walk that starts on a tab index never leaves [0, 3]. */
  lemma {:induction false} WalkInRange(i: int, es: seq<Event>)
    requires 0 <= i < TabCount
    ensures 0 <= Walk(i, es) < TabCount
    decreases |es|
  {
    if es != [] {
      WalkInRange(i, es[..|es| - 1]);
    }
  }

  /**
   * In `Running`, any sequence of arrow presses moves the tab along the
   * clamped walk and changes nothing else.
   */
  lemma {:induction false} ArrowPressesWalk(v: HostView, es: seq<Event>)
    requires v.state == Running
    requires forall k :: 0 <= k < |es| ==> IsArrowPress(es[k])
    ensures Replay(v, es) == v.(tab := Replay(v, es).tab)
    ensures Discriminant(Replay(v, es).tab) == Walk(Discriminant(v.tab), es)
    decreases |es|
  {
    if es != [] {
      ArrowPressesWalk(v, es[..|es| - 1]);
    }
  }

  /** `n` Right presses: the index becomes `min(i + n, 3)`; at the last tab it stays there. */
  lemma {:induction false} RepeatedRight(v: HostView, n: nat)
    requires v.state == Running
    ensures Discriminant(Replay(v, seq(n, _ => KeyInput(Pressed(Right)))).tab)
         == Min(Discriminant(v.tab) + n, TabCount - 1)
    ensures Replay(v, seq(n, _ => KeyInput(Pressed(Right)))).state == Running
  {
    if n > 0 {
      var es := seq(n, _ => KeyInput(Pressed(Right)));
      assert es[..n - 1] == seq(n - 1, _ => KeyInput(Pressed(Right)));
      RepeatedRight(v, n - 1);
    }
  }

  /** `n` Left presses: the index becomes `max(i - n, 0)`; at the first tab it stays there. */
  lemma {:induction false} RepeatedLeft(v: HostView, n: nat)
    requires v.state == Running
    ensures Discriminant(Replay(v, seq(n, _ => KeyInput(Pressed(Left)))).tab)
         == Max(Discriminant(v.tab) - n, 0)
    ensures Replay(v, seq(n, _ => KeyInput(Pressed(Left)))).state == Running
  {
    if n > 0 {
      var es := seq(n, _ => KeyInput(Pressed(Left)));
      assert es[..n - 1] == seq(n - 1, _ => KeyInput(Pressed(Left)));
      RepeatedLeft(v, n - 1);
    }
  }

  /** The titles of the tab strip, one per tab in iteration order, each padded by two spaces. */
  function TabTitles(): seq<string> {
    seq(TabCount, i requires 0 <= i < TabCount => "  " + Display(AllTabs()[i]) + "  ")
  }

  /** The strip highlights the title at the selected tab's discriminant: that tab's own title. */
  lemma SelectedTitleIsSelectedTab(t: SelectedTab)
    ensures Discriminant(t) < |TabTitles()|
    ensures TabTitles()[Discriminant(t)] == "  " + Display(t) + "  "
  {
    AllTabsAtDiscriminant(t);
  }

  // ---------------------------------------------------------------------
  // Single events

  /** Release and repeat events change nothing, in every lifecycle state. */
  lemma NonPressIgnored(v: HostView, key: KeyEvent)
    requires key.kind != Press
    ensures OnEvent(v, KeyInput(key)) == v
  {
  }

  /** In `Running`, q/Q asks for confirmation and changes nothing else. */
  lemma QuitAsksConfirmation(v: HostView, code: KeyCode)
    requires v.state == Running && IsLetter(code, 'q', 'Q')
    ensures OnEvent(v, KeyInput(Pressed(code))) == v.(state := ShuttingDown)
  {
  }

  /** In `Running`, c/C sets the cancel flag and changes nothing else. */
  lemma CancelSetsFlag(v: HostView, code: KeyCode)
    requires v.state == Running && IsLetter(code, 'c', 'C')
    ensures OnEvent(v, KeyInput(Pressed(code))) == v.(cancel := true)
  {
  }

  /**
   * In `Running`, r/R leaves the flag false whatever it was, hands out one
   * more handle, and changes nothing else.
   */
  lemma RunSpawnsWorker(v: HostView, code: KeyCode)
    requires v.state == Running && IsLetter(code, 'r', 'R')
    ensures OnEvent(v, KeyInput(Pressed(code))) == v.(cancel := false, liveHandles := v.liveHandles + 1)
  {
  }

  /** The keys that `handle_key_event` acts upon. */
  predicate IsRunningKey(code: KeyCode) {
    IsLetter(code, 'q', 'Q') || IsLetter(code, 'c', 'C') || IsLetter(code, 'r', 'R')
    || code == Left || code == Right
  }

  /** In `Running`, every other key press is a no-op. */
  lemma UnlistedRunningKeyIgnored(v: HostView, code: KeyCode)
    requires v.state == Running && !IsRunningKey(code)
    ensures OnEvent(v, KeyInput(Pressed(code))) == v
  {
  }

  /** In `ShuttingDown`, n/N returns to `Running` with tab, progress and flag as before. */
  lemma DeclineReturnsToRunning(v: HostView, code: KeyCode)
    requires v.state == ShuttingDown && IsLetter(code, 'n', 'N')
    ensures OnEvent(v, KeyInput(Pressed(code))) == v.(state := Running)
  {
  }

  /** q then n restores exactly the view before q. */
  lemma QuitThenDeclineRestores(v: HostView, q: KeyCode, n: KeyCode)
    requires v.state == Running && IsLetter(q, 'q', 'Q') && IsLetter(n, 'n', 'N')
    ensures Replay(v, [KeyInput(Pressed(q)), KeyInput(Pressed(n))]) == v
  {
    var es := [KeyInput(Pressed(q)), KeyInput(Pressed(n))];
    assert es[..1] == [KeyInput(Pressed(q))];
    assert es[..1][..0] == [];
    assert Replay(v, es[..1]) == v.(state := ShuttingDown);
  }

  /**
   * In `ShuttingDown`, y/Y completes with no live handle left; the flag is
   * forced true when a handle was live and keeps its value otherwise.
   */
  lemma ConfirmCompletes(v: HostView, code: KeyCode)
    requires v.state == ShuttingDown && IsLetter(code, 'y', 'Y')
    ensures var w := OnEvent(v, KeyInput(Pressed(code)));
      && w.state == Completed && w.liveHandles == 0
      && w.cancel == (v.cancel || v.liveHandles > 0)
      && w.tab == v.tab && w.progress == v.progress
  {
  }

  /** The keys that `handle_should_exit` acts upon. */
  predicate IsShutdownKey(code: KeyCode) {
    IsLetter(code, 'y', 'Y') || IsLetter(code, 'n', 'N')
  }

  /** In `ShuttingDown`, every other key press is a no-op. */
  lemma UnlistedShutdownKeyIgnored(v: HostView, code: KeyCode)
    requires v.state == ShuttingDown && !IsShutdownKey(code)
    ensures OnEvent(v, KeyInput(Pressed(code))) == v
  {
  }

  /**
   * `Completed` is reached only from `ShuttingDown` by a y/Y press, and never
   * while a handle is live.
   */
  lemma CompletedOnlyByConfirm(v: HostView, e: Event)
    requires v.state != Completed && OnEvent(v, e).state == Completed
    ensures v.state == ShuttingDown
    ensures e.KeyInput? && e.key.kind == Press && IsLetter(e.key.code, 'y', 'Y')
    ensures OnEvent(v, e).liveHandles == 0
  {
  }

  /** A progress report is stored verbatim, in every state, and changes nothing else. */
  lemma ProgressStoredVerbatim(v: HostView, p: real)
    ensures OnEvent(v, BackgroundTask(p)) == v.(progress := p)
  {
  }

  /** Once `Completed`, key events change nothing. */
  lemma CompletedIgnoresKeys(v: HostView, key: KeyEvent)
    requires v.state == Completed
    ensures OnEvent(v, KeyInput(key)) == v
  {
  }

  // ---------------------------------------------------------------------
  // Sequences of events

  /** The progress reported by the last `BackgroundTask` in `es`, or `p0` when there is none. */
  function LastProgress(p0: real, es: seq<Event>): real
    decreases |es|
  {
    if es == [] then p0
    else if es[|es| - 1].BackgroundTask? then es[|es| - 1].progress
    else LastProgress(p0, es[..|es| - 1])
  }

  /** The stored progress is always the last one reported: keys never touch it. */
  lemma {:induction false} ReplayProgress(v: HostView, es: seq<Event>)
    ensures Replay(v, es).progress == LastProgress(v.progress, es)
    decreases |es|
  {
    if es != [] {
      ReplayProgress(v, es[..|es| - 1]);
    }
  }

  /** Progress reports alone never change the lifecycle state or the tab. */
  lemma {:induction false} ProgressReportsKeepStateAndTab(v: HostView, es: seq<Event>)
    requires forall k :: 0 <= k < |es| ==> es[k].BackgroundTask?
    ensures Replay(v, es).state == v.state && Replay(v, es).tab == v.tab
    ensures Replay(v, es).cancel == v.cancel && Replay(v, es).liveHandles == v.liveHandles
    decreases |es|
  {
    if es != [] {
      ProgressReportsKeepStateAndTab(v, es[..|es| - 1]);
    }
  }

  /** Replaying a prefix and then one more event is replaying the longer prefix. */
  lemma ReplayStep(v: HostView, es: seq<Event>, i: nat)
    requires i < |es|
    ensures Replay(v, es[..i + 1]) == OnEvent(Replay(v, es[..i]), es[i])
  {
    assert es[..i + 1][..i] == es[..i];
  }

  // ---------------------------------------------------------------------
  // What the event loop observes, including workers that end on their own

  /**
   * One thing that happens between two turns of the event loop: an event
   * arrives on the channel, or a worker ends by itself (it saw the flag or
   * reached full progress) and drops its handle without sending anything.
   */
  datatype Input = Received(e: Event) | WorkerEnds

  /**
   * One input applied to the view. A worker can only end while it holds a
   * handle; with no live handle, `WorkerEnds` changes nothing.
   */
  function Step(v: HostView, i: Input): HostView {
    match i
    case Received(e) => OnEvent(v, e)
    case WorkerEnds => if v.liveHandles > 0 then v.(liveHandles := v.liveHandles - 1) else v
  }

  /** The view after applying `ins` in order. */
  function Trace(v: HostView, ins: seq<Input>): HostView
    decreases |ins|
  {
    if ins == [] then v else Step(Trace(v, ins[..|ins| - 1]), ins[|ins| - 1])
  }

  /** How many of `ins` are events received on the channel, i.e. how many draws follow. */
  function ReceivedCount(ins: seq<Input>): (n: nat)
    ensures n <= |ins|
    decreases |ins|
  {
    if ins == [] then 0
    else ReceivedCount(ins[..|ins| - 1]) + (if ins[|ins| - 1].Received? then 1 else 0)
  }

  /** The inputs of a run in which no worker ends on its own. */
  function Arrivals(es: seq<Event>): (r: seq<Input>)
    ensures |r| == |es|
    ensures forall k :: 0 <= k < |es| ==> r[k] == Received(es[k])
    decreases |es|
  {
    if es == [] then [] else Arrivals(es[..|es| - 1]) + [Received(es[|es| - 1])]
  }

  /** A prefix of the inputs and then one more is the longer prefix. */
  lemma TraceStep(v: HostView, ins: seq<Input>, i: nat)
    requires i < |ins|
    ensures Trace(v, ins[..i + 1]) == Step(Trace(v, ins[..i]), ins[i])
    ensures ReceivedCount(ins[..i + 1]) == ReceivedCount(ins[..i]) + (if ins[i].Received? then 1 else 0)
  {
    assert ins[..i + 1][..i] == ins[..i];
  }

  /** With no worker ending on its own, the loop's inputs are replayed as plain events. */
  lemma {:induction false} TraceArrivals(v: HostView, es: seq<Event>)
    ensures Trace(v, Arrivals(es)) == Replay(v, es)
    ensures ReceivedCount(Arrivals(es)) == |es|
    decreases |es|
  {
    if es != [] {
      var ins := Arrivals(es);
      assert ins[..|ins| - 1] == Arrivals(es[..|es| - 1]);
      TraceArrivals(v, es[..|es| - 1]);
    }
  }

  /** A worker ending drops at most one handle and changes nothing else. */
  lemma WorkerEndsDropsOneHandle(v: HostView)
    requires v.liveHandles > 0
    ensures Step(v, WorkerEnds) == v.(liveHandles := v.liveHandles - 1)
  {
  }

  /** The host as `Host::new` leaves it. */
  function Fresh(): HostView {
    HostView(Running, DefaultTab(), 0.0, false, 0)
  }

  /**
   * The flag raised by y/Y depends on the workers still alive: start one
   * worker, let it end by itself, quit and confirm, and the flag stays
   * clear; had it not ended, the confirmation raises the flag.
   */
  lemma {:induction false} ConfirmFlagFollowsLiveWorkers()
    ensures var ended := [Received(KeyInput(Pressed(Char('r')))), WorkerEnds,
                          Received(KeyInput(Pressed(Char('q')))), Received(KeyInput(Pressed(Char('y'))))];
      Trace(Fresh(), ended).state == Completed && !Trace(Fresh(), ended).cancel
    ensures var live := [Received(KeyInput(Pressed(Char('r')))),
                         Received(KeyInput(Pressed(Char('q')))), Received(KeyInput(Pressed(Char('y'))))];
      Trace(Fresh(), live).state == Completed && Trace(Fresh(), live).cancel
  {
    var r, q, y := Received(KeyInput(Pressed(Char('r')))), Received(KeyInput(Pressed(Char('q')))),
                   Received(KeyInput(Pressed(Char('y'))));
    var v1 := Step(Fresh(), r);
    assert v1 == Fresh().(liveHandles := 1);
    var ended := [r, WorkerEnds, q, y];
    assert ended[..1] == [r] && [r][..0] == [];
    assert Trace(Fresh(), ended[..1]) == v1;
    assert ended[..2][..1] == ended[..1];
    assert Trace(Fresh(), ended[..2]) == Fresh();
    assert ended[..3][..2] == ended[..2];
    assert Trace(Fresh(), ended[..3]) == Fresh().(state := ShuttingDown);
    assert ended[..3] == ended[..|ended| - 1];
    var live := [r, q, y];
    assert live[..1] == [r];
    assert Trace(Fresh(), live[..1]) == v1;
    assert live[..2][..1] == live[..1];
    assert Trace(Fresh(), live[..2]) == v1.(state := ShuttingDown);
    assert live[..2] == live[..|live| - 1];
  }
}
