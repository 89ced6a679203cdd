/**
 * The front-end behaviour of one mega menu instance (`$.fn.megamenu` in
 * assets/js/mega_menu.js): triggers open their panel and hide every other
 * one, a second click on an open panel's trigger fires the cancellable
 * `mega-menu:closing` event, and so does a click outside the menu.
 *
 * The pure functions below state each handler's effect on the panels; the
 * class `Dropdown` performs the same updates in place, the way the script
 * does on its jQuery collection, and is proved against them.
 */
module MenuScript {
  import opened Wrappers

  /**
   * One `[data-mega-menu-content]` element: whether it is shown (jQuery's
   * `show`/`hide`, read back through `:visible`) and whether it carries the
   * `visible` class.
   */
  datatype Panel = Panel(shown: bool, marked: bool)

  const Hidden := Panel(false, false)
  const Opened := Panel(true, true)

  /** The panels of one menu instance, keyed by their `data-mega-menu-content` id. */
  type Panels = map<string, Panel>

  /** No panel is shown and none carries the `visible` class. */
  ghost predicate Closed(p: Panels) {
    forall k :: k in p ==> p[k] == Hidden
  }

  /**
   * The invariant the script keeps: at most one panel is shown, and the
   * `visible` class sits on exactly the shown panels.
   */
  ghost predicate Consistent(p: Panels) {
    && (forall a, b :: a in p && b in p && p[a].shown && p[b].shown ==> a == b)
    && (forall k :: k in p ==> p[k].marked == p[k].shown)
  }

  /**
   * The panels once the script has bound to the menu: `$content.hide()` hides
   * them all, and the server renders them without the `visible` class.
   */
  function Init(ids: set<string>): (p: Panels)
    ensures p.Keys == ids
    ensures Closed(p) && Consistent(p)
  {
    map k | k in ids :: Hidden
  }

  /** `hideContent(current)`: every panel except `current` is hidden and loses the class. */
  function AfterHide(p: Panels, current: Option<string>): (r: Panels)
    ensures r.Keys == p.Keys
    ensures forall k :: k in r && Some(k) != current ==> r[k] == Hidden
    ensures forall k :: k in r && Some(k) == current ==> r[k] == p[k]
    ensures Consistent(p) ==> Consistent(r)
  {
    map k | k in p :: if Some(k) == current then p[k] else Hidden
  }

  /**
   * `triggerClosingEvent`: the closing event is fired; unless a listener
   * prevents it, every panel is hidden.
   */
  function AfterClosing(p: Panels, prevented: bool): (r: Panels)
    ensures r.Keys == p.Keys
    ensures prevented ==> r == p
    ensures !prevented ==> Closed(r)
    ensures Consistent(p) ==> Consistent(r)
  {
    if prevented then p else AfterHide(p, None)
  }

  /** What a handler leaves behind: the panels, and which side effects on the event it had. */
  datatype Outcome = Outcome(panels: Panels, closingFired: bool, defaultPrevented: bool)

  /**
   * `toggleContent` for a click on a trigger whose `data-mega-menu-content-target`
   * is `target`; `closingPrevented` is what the closing event's listeners
   * decide, should that event be fired.
   */
  function AfterToggle(p: Panels, target: string, closingPrevented: bool): (r: Outcome)
    // No target, or no panel with that id: nothing happens and the browser
    // follows the link.
    ensures target == "" || target !in p ==> r == Outcome(p, false, false)
    // Otherwise the link is never followed.
    ensures target != "" && target in p ==> r.defaultPrevented
    // The target's panel is shown: the click closes the menu through the
    // closing event.
    ensures target != "" && target in p && p[target].shown ==>
      r.closingFired && r.panels == AfterClosing(p, closingPrevented)
    // The target's panel is hidden: it opens and every other panel is hidden,
    // with no event fired.
    ensures target != "" && target in p && !p[target].shown ==>
      && !r.closingFired
      && r.panels.Keys == p.Keys
      && r.panels[target] == Opened
      && (forall k :: k in p && k != target ==> r.panels[k] == Hidden)
    ensures Consistent(p) ==> Consistent(r.panels)
  {
    if target == "" || target !in p then Outcome(p, false, false)
    else if p[target].shown then Outcome(AfterClosing(p, closingPrevented), true, true)
    else Outcome(AfterHide(p, Some(target))[target := Opened], false, true)
  }

  /**
   * `onOutsideClick` for a click anywhere in the document: `inside` says
   * whether the clicked element lies inside the menu's container. A click
   * outside fires the closing event whatever the panels look like.
   */
  function AfterOutsideClick(p: Panels, inside: bool, closingPrevented: bool): (r: Outcome)
    ensures r.closingFired <==> !inside
    ensures !r.defaultPrevented
    ensures inside ==> r.panels == p
    ensures !inside ==> r.panels == AfterClosing(p, closingPrevented)
    ensures Consistent(p) ==> Consistent(r.panels)
  {
    if inside then Outcome(p, false, false)
    else Outcome(AfterClosing(p, closingPrevented), true, false)
  }

  /** The inputs the script reacts to. */
  datatype Event =
    | TriggerClick(target: string, closingPrevented: bool)
    | DocumentClick(inside: bool, closingPrevented: bool)
    | CloseCall(closingPrevented: bool)

  function Step(p: Panels, e: Event): (r: Panels)
    ensures r.Keys == p.Keys
  {
    match e
    case TriggerClick(t, c) => AfterToggle(p, t, c).panels
    case DocumentClick(i, c) => AfterOutsideClick(p, i, c).panels
    case CloseCall(c) => AfterClosing(p, c)
  }

  /** The panels after handling `es` in order, starting from `p`. */
  function Run(p: Panels, es: seq<Event>): Panels
  {
    if es == [] then p else Run(Step(p, es[0]), es[1..])
  }

  /** Every handler keeps the invariant, so any sequence of events does. */
  lemma {:induction false} RunConsistent(p: Panels, es: seq<Event>)
    requires Consistent(p)
    ensures Consistent(Run(p, es))
    ensures Run(p, es).Keys == p.Keys
  {
    if es != [] {
      var q := Step(p, es[0]);
      assert Consistent(q) by {
        match es[0]
        case TriggerClick(t, c) =>
        case DocumentClick(i, c) =>
        case CloseCall(c) =>
      }
      RunConsistent(q, es[1..]);
    }
  }

  /** From the initial state, at most one panel is ever shown. */
  lemma AtMostOneShownAfterAnyRun(ids: set<string>, es: seq<Event>, a: string, b: string)
    requires var p := Run(Init(ids), es); a in p && b in p && p[a].shown && p[b].shown
    ensures a == b
  {
    RunConsistent(Init(ids), es);
  }

  /**
   * Opening a panel and clicking its trigger again, with nobody preventing
   * the closing event, leaves the menu closed.
   */
  lemma OpenThenCloseIsClosed(p: Panels, t: string, c: bool)
    requires t != "" && t in p && !p[t].shown
    ensures var q := AfterToggle(p, t, c).panels;
            var r := AfterToggle(q, t, false);
            r.closingFired && Closed(r.panels)
  {
    var q := AfterToggle(p, t, c).panels;
    assert q[t].shown;
  }

  /**
   * A click on the trigger of a hidden panel while another panel is open
   * switches straight to the new panel.
   */
  lemma SwitchPanels(p: Panels, a: string, b: string, c: bool)
    requires Consistent(p)
    requires a in p && p[a].shown && b != "" && b in p && b != a
    ensures var r := AfterToggle(p, b, c);
            && !r.closingFired
            && r.panels[b] == Opened && r.panels[a] == Hidden
            && (forall k :: k in r.panels && r.panels[k].shown ==> k == b)
  {
  }

  /** `close()` is exactly the closing a click on an open panel's trigger causes. */
  lemma CloseIsClickClose(p: Panels, t: string, c: bool)
    requires t != "" && t in p && p[t].shown
    ensures Step(p, CloseCall(c)) == Step(p, TriggerClick(t, c))
  {
  }

  /** One menu instance, updating its panels in place as the script does. */
  class Dropdown {
    var panels: Panels

    ghost predicate Valid()
      reads this
    {
      Consistent(panels)
    }

    /** Binding the script to a container holding the panels `ids`. */
    constructor (ids: set<string>)
      ensures Valid()
      ensures panels == Init(ids)
    {
      panels := map k | k in ids :: Hidden;
    }

    method HideContent(current: Option<string>)
      requires Valid()
      modifies this
      ensures Valid()
      ensures panels == AfterHide(old(panels), current)
    {
      panels := map k | k in panels :: if Some(k) == current then panels[k] else Hidden;
    }

    method TriggerClosingEvent(prevented: bool)
      requires Valid()
      modifies this
      ensures Valid()
      ensures panels == AfterClosing(old(panels), prevented)
    {
      if !prevented {
        HideContent(None);
      }
    }

    method OnOutsideClick(inside: bool, closingPrevented: bool) returns (closingFired: bool)
      requires Valid()
      modifies this
      ensures Valid()
      ensures Outcome(panels, closingFired, false) == AfterOutsideClick(old(panels), inside, closingPrevented)
    {
      closingFired := !inside;
      if closingFired {
        TriggerClosingEvent(closingPrevented);
      }
    }

    method ToggleContent(target: string, closingPrevented: bool) returns (defaultPrevented: bool, closingFired: bool)
      requires Valid()
      modifies this
      ensures Valid()
      ensures Outcome(panels, closingFired, defaultPrevented) == AfterToggle(old(panels), target, closingPrevented)
    {
      if target == "" || target !in panels {
        return false, false;
      }
      closingFired := panels[target].shown;
      if closingFired {
        TriggerClosingEvent(closingPrevented);
      } else {
        HideContent(Some(target));
        panels := panels[target := Opened];
      }
      defaultPrevented := true;
    }

    method Close(closingPrevented: bool)
      requires Valid()
      modifies this
      ensures Valid()
      ensures panels == AfterClosing(old(panels), closingPrevented)
    {
      TriggerClosingEvent(closingPrevented);
    }
  }
}
