/**
 * The application's data model: the event type of the host's channel, the
 * lifecycle enum and the tab enum with its strum-derived conversions
 * (`FromRepr`, `Default`, `Display`, `EnumIter`), plus the parts of the
 * terminal library's key events that the host looks at.
 */
module AppState {
  import opened Wrappers

  /** The kind of a key event: only `Press` is acted upon by the host. */
  datatype KeyKind = Press | Repeat | Release

  /**
   * The key codes the host distinguishes. `OtherKey(id)` stands for every
   * other code the terminal library can report (Enter, Up, F(n), ...).
   */
  datatype KeyCode = Char(c: char) | Left | Right | OtherKey(id: nat)

  /** A key event, reduced to what the host reads: its code and its kind. */
  datatype KeyEvent = KeyEvent(code: KeyCode, kind: KeyKind)

  /**
   * The single channel's payload. The background progress is an `f64` in the
   * program; the host only stores it, so it is an opaque `real` here.
   */
  datatype Event = KeyInput(key: KeyEvent) | BackgroundTask(progress: real)

  /** The host's lifecycle. */
  datatype HostState = Running | ShuttingDown | Completed

  /** The four tabs, in declaration order. */
  datatype SelectedTab = Tab1 | Tab2 | Tab3 | Tab4

  /** Number of tabs. */
  const TabCount: nat := 4

  /** The enum's discriminant, `tab as usize`. */
  function Discriminant(t: SelectedTab): (i: nat)
    ensures i < TabCount
  {
    match t
    case Tab1 => 0
    case Tab2 => 1
    case Tab3 => 2
    case Tab4 => 3
  }

  /** strum's `from_repr`: the tab with discriminant `i`, if there is one. */
  function FromRepr(i: nat): (r: Option<SelectedTab>)
    ensures r.Some? <==> i < TabCount
    ensures r.Some? ==> Discriminant(r.value) == i
  {
    if i == 0 then Some(Tab1)
    else if i == 1 then Some(Tab2)
    else if i == 2 then Some(Tab3)
    else if i == 3 then Some(Tab4)
    else None
  }

  /** Converting a tab to its discriminant and back gives the tab again. */
  lemma FromReprDiscriminant(t: SelectedTab)
    ensures FromRepr(Discriminant(t)) == Some(t)
  {
  }

  /** Distinct tabs have distinct discriminants. */
  lemma DiscriminantInjective(s: SelectedTab, t: SelectedTab)
    ensures Discriminant(s) == Discriminant(t) ==> s == t
  {
    FromReprDiscriminant(s);
    FromReprDiscriminant(t);
  }

  /** The `#[default]` tab. */
  function DefaultTab(): (t: SelectedTab)
    ensures Discriminant(t) == 0
  {
    Tab1
  }

  /** The decimal digit for `d < 10`. */
  function Digit(d: nat): (c: char)
    requires d < 10
  {
    ('0' as int + d) as char
  }

  /** strum's `Display`, from the `to_string` attributes: "Tab 1" ... "Tab 4". */
  function Display(t: SelectedTab): (s: string)
    ensures s == "Tab " + [Digit(Discriminant(t) + 1)]
  {
    match t
    case Tab1 => "Tab 1"
    case Tab2 => "Tab 2"
    case Tab3 => "Tab 3"
    case Tab4 => "Tab 4"
  }

  /** Distinct tabs display differently. */
  lemma DisplayInjective(s: SelectedTab, t: SelectedTab)
    ensures Display(s) == Display(t) ==> s == t
  {
    if Display(s) == Display(t) {
      assert Display(s)[4] == Display(t)[4];
      DiscriminantInjective(s, t);
    }
  }

  /** strum's `EnumIter`: every tab, once, in declaration order. */
  function AllTabs(): (ts: seq<SelectedTab>)
    ensures |ts| == TabCount
    ensures forall i :: 0 <= i < |ts| ==> Discriminant(ts[i]) == i
  {
    [Tab1, Tab2, Tab3, Tab4]
  }

  /** A tab's discriminant is its position in the iteration order. */
  lemma AllTabsAtDiscriminant(t: SelectedTab)
    ensures AllTabs()[Discriminant(t)] == t
  {
    DiscriminantInjective(AllTabs()[Discriminant(t)], t);
  }

  /** The lifecycle has exactly three states. */
  lemma HostStateCases(s: HostState)
    ensures s == Running || s == ShuttingDown || s == Completed
  {
  }

  /** An event is exactly one of the two kinds. */
  lemma EventCases(e: Event)
    ensures e.KeyInput? != e.BackgroundTask?
  {
  }
}
