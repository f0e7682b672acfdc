/**
 * The popup controller of src/map/popup.ts: one popup per map, bound to a
 * target, with the hover-intent timers that close it. Browser timers are
 * explicit: `timers` is the queue of this popup's scheduled callbacks that
 * have neither run nor been cleared, and `Fire` runs the next one.
 */
module PopupController {
  import opened Wrappers
  import opened LeafletTypes

  /** A per-target `tooltip` setting; `Unset` is an undefined value. */
  datatype TooltipDisplay = Always | Hover | Never | Unset

  /** The two global settings the popup reads from the plugin's data. */
  datatype TooltipSettings = TooltipSettings(displayMarkerTooltips: bool, displayOverlayTooltips: bool)

  /**
   * What a popup can be opened on. `ref` stands for the object's identity
   * (targets are compared with `==` on references); `tooltip` is None when the
   * object has no `tooltip` property.
   */
  datatype Target =
    | MarkerTarget(ref: nat, location: LatLng, tooltip: Option<TooltipDisplay>)
    | CircleTarget(ref: nat, center: LatLng, tooltip: Option<TooltipDisplay>)
    | LatLngTarget(ref: nat, at: LatLng)
    | PolylineTarget(ref: nat, vertices: seq<LatLng>, tooltip: Option<TooltipDisplay>)

  /** A Leaflet layer passed as the hover handler. */
  datatype Layer = Layer(ref: nat)

  /** `handlerTarget`: the handler layer if one was given, else the target itself. */
  datatype HandlerTarget = HandlerLayer(layer: Layer) | SameAsTarget(target: Target)

  /** The vertical offset a popup is built with: the options' own, or half the element's height (plus 10 for circles). */
  datatype Offset = OptionsOffset | CircleOffset | MarkerOffset

  datatype TimerKind =
    | HoverTimeOut     // runs `onTimeOut`
    | CoordinateClose  // the coordinate popup's callback, which runs `close`

  datatype PendingTimer = PendingTimer(handle: nat, ms: nat, kind: TimerKind)

  type Content = string

  const HoverDelay: nat := 500
  const CoordinateDelay: nat := 1000

  /** The `tooltip` property of a target, None when it has none (`"tooltip" in target`). */
  function TooltipOf(t: Target): (r: Option<TooltipDisplay>)
    ensures t.LatLngTarget? ==> r.None?
    ensures !t.LatLngTarget? ==> r == t.tooltip
  {
    if t.LatLngTarget? then None else t.tooltip
  }

  /**
   * `canShowTooltip`: the global setting (the marker one for markers, the
   * overlay one otherwise), unless the target's own setting is "always" or
   * "never".
   */
  function CanShowTooltip(t: Target, tooltip: TooltipDisplay, s: TooltipSettings): (r: bool)
    ensures r <==> (if t.MarkerTarget? then s.displayMarkerTooltips else s.displayOverlayTooltips)
                   && tooltip != Always && tooltip != Never
  {
    var global := if t.MarkerTarget? then s.displayMarkerTooltips else s.displayOverlayTooltips;
    if tooltip == Always then false
    else if tooltip == Hover && global then true
    else if tooltip == Never then false
    else global
  }

  /** The gate at the top of `open`: targets with a `tooltip` property must pass `canShowTooltip`. */
  predicate Gate(t: Target, s: TooltipSettings): (ok: bool)
    ensures ok <==>
      || t.LatLngTarget?
      || t.tooltip.None?
      || ((if t.MarkerTarget? then s.displayMarkerTooltips else s.displayOverlayTooltips)
          && t.tooltip.value != Always && t.tooltip.value != Never)
  {
    match TooltipOf(t)
    case None => true
    case Some(tip) => CanShowTooltip(t, tip, s)
  }

  /** A target without a `tooltip` property (a bare coordinate) always passes the gate. */
  lemma CoordinatesPassGate(t: Target, s: TooltipSettings)
    requires t.LatLngTarget?
    ensures Gate(t, s)
  {
  }

  /** `getLatLngs()[1]`: undefined when the line has fewer than two vertices. */
  function SecondVertex(vertices: seq<LatLng>): (r: Option<LatLng>)
    ensures r.Some? <==> |vertices| >= 2
    ensures r.Some? ==> r.value == vertices[1]
  {
    if |vertices| >= 2 then Some(vertices[1]) else None
  }

  /**
   * Where `buildPopup` anchors a new popup: a coordinate at itself, a line at
   * its second vertex, a circle at its centre, a marker at its location.
   */
  function Anchor(t: Target): (r: Option<LatLng>)
    ensures t.LatLngTarget? ==> r == Some(t.at)
    ensures t.PolylineTarget? ==> r == SecondVertex(t.vertices)
    ensures t.CircleTarget? ==> r == Some(t.center)
    ensures t.MarkerTarget? ==> r == Some(t.location)
  {
    match t
    case LatLngTarget(_, at) => Some(at)
    case PolylineTarget(_, vs, _) => SecondVertex(vs)
    case CircleTarget(_, c, _) => Some(c)
    case MarkerTarget(_, loc, _) => Some(loc)
  }

  /** The offset `buildPopup` gives a new popup: circles and markers are lifted by their element's height. */
  function OffsetFor(t: Target): (r: Offset)
    ensures r == OptionsOffset <==> t.LatLngTarget? || t.PolylineTarget?
    ensures t.CircleTarget? <==> r == CircleOffset
  {
    match t
    case LatLngTarget(_, _) => OptionsOffset
    case PolylineTarget(_, _, _) => OptionsOffset
    case CircleTarget(_, _, _) => CircleOffset
    case MarkerTarget(_, _, _) => MarkerOffset
  }

  /** `handler ?? target`. */
  function HandlerOf(handler: Option<Layer>, t: Target): (h: HandlerTarget)
    ensures handler.Some? ==> h == HandlerLayer(handler.value)
    ensures handler.None? ==> h == SameAsTarget(t)
  {
    match handler
    case Some(l) => HandlerLayer(l)
    case None => SameAsTarget(t)
  }

  /** `handlerTarget instanceof L.LatLng`. */
  predicate IsCoordinate(h: HandlerTarget) {
    h.SameAsTarget? && h.target.LatLngTarget?
  }

  /** The handler `open` records is a coordinate exactly when no handler layer is given and the target is one. */
  lemma CoordinateHandler(handler: Option<Layer>, t: Target)
    ensures IsCoordinate(HandlerOf(handler, t)) <==> handler.None? && t.LatLngTarget?
  {
  }

  /** `clearTimeout(handle)`: drops the timer with that handle; an undefined handle drops nothing. */
  function WithoutHandle(timers: seq<PendingTimer>, handle: Option<nat>): (r: seq<PendingTimer>)
    ensures handle.None? ==> r == timers
    ensures forall i :: 0 <= i < |r| ==> r[i] in timers && Some(r[i].handle) != handle
    ensures forall i :: 0 <= i < |timers| && Some(timers[i].handle) != handle ==> timers[i] in r
  {
    if timers == [] then []
    else (if Some(timers[0].handle) != handle then [timers[0]] else []) + WithoutHandle(timers[1..], handle)
  }

  /** A Leaflet popup (`L.Popup`): open or not, its anchor and its content. */
  class LeafletPopup {
    const offset: Offset
    var isOpen: bool
    var latLng: Option<LatLng>
    var content: Option<Content>

    /** `L.popup(options).setLatLng(latLng)`: a new, closed popup. */
    constructor(offset: Offset, latLng: Option<LatLng>)
      ensures this.offset == offset && this.latLng == latLng && !isOpen && content.None?
    {
      this.offset := offset;
      this.latLng := latLng;
      isOpen := false;
      content := None;
    }

    method SetContent(c: Content)
      modifies this`content
      ensures content == Some(c)
    {
      content := Some(c);
    }

    method SetLatLng(p: Option<LatLng>)
      modifies this`latLng
      ensures latLng == p
    {
      latLng := p;
    }

    /** The map opens this popup (`openPopup`). */
    method Show()
      modifies this`isOpen
      ensures isOpen
    {
      isOpen := true;
    }

    /** The map closes this popup (`closePopup`). */
    method Hide()
      modifies this`isOpen
      ensures !isOpen
    {
      isOpen := false;
    }
  }

  class Popup {
    /** `options.permanent`. */
    const permanent: bool
    var leafletInstance: LeafletPopup
    var target: Option<Target>
    var handlerTarget: Option<HandlerTarget>
    /** The scheduled callbacks of this popup that have not run or been cleared. */
    var timers: seq<PendingTimer>
    /** `_timeoutHandler`: the handle of the last timer set; it is never reset. */
    var timeoutHandler: Option<nat>
    /** The next handle `setTimeout` returns (handles are positive, so truthy). */
    var nextHandle: nat

    /**
     * At most one timer is pending, it is the one `_timeoutHandler` names, and
     * a permanent popup has none.
     */
    ghost predicate Valid()
      reads this
    {
      && |timers| <= 1
      && (|timers| == 1 ==> timeoutHandler == Some(timers[0].handle))
      && (permanent ==> timers == [])
      && nextHandle > 0
    }

    /** The popup is open on an object identical to `t`. */
    ghost predicate Shows(t: Target)
      reads this, leafletInstance
    {
      IsOpen() && target.Some? && target.value.ref == t.ref
    }

    constructor(permanent: bool)
      ensures Valid() && this.permanent == permanent
      ensures fresh(leafletInstance) && !leafletInstance.isOpen && leafletInstance.latLng.None?
      ensures target.None? && handlerTarget.None? && timers == [] && timeoutHandler.None?
    {
      this.permanent := permanent;
      leafletInstance := new LeafletPopup(OptionsOffset, None);
      target := None;
      handlerTarget := None;
      timers := [];
      timeoutHandler := None;
      nextHandle := 1;
    }

    /** `isOpen()`: whether the current Leaflet popup is open. */
    function IsOpen(): (r: bool)
      reads this, leafletInstance
      ensures r == leafletInstance.isOpen
    {
      leafletInstance.isOpen
    }

    /** `setTimeout(callback, ms)`: queues a timer under a new handle. */
    method SetTimeout(ms: nat, kind: TimerKind) returns (handle: nat)
      modifies this`timers, this`nextHandle
      ensures handle == old(nextHandle) && nextHandle == handle + 1
      ensures timers == old(timers) + [PendingTimer(handle, ms, kind)]
    {
      handle := nextHandle;
      nextHandle := nextHandle + 1;
      timers := timers + [PendingTimer(handle, ms, kind)];
    }

    /** `clearTimeout(handle)`. */
    method ClearTimeout(handle: Option<nat>)
      modifies this`timers
      ensures timers == WithoutHandle(old(timers), handle)
    {
      timers := WithoutHandle(timers, handle);
    }

    /** `close`: the map closes the popup; closing a closed popup changes nothing. */
    method Close()
      modifies leafletInstance
      ensures !leafletInstance.isOpen
      ensures leafletInstance.latLng == old(leafletInstance.latLng)
      ensures leafletInstance.content == old(leafletInstance.content)
      ensures !old(leafletInstance.isOpen) ==> unchanged(leafletInstance)
    {
      leafletInstance.Hide();
    }

    /** `onTimeOut`: closes the popup unless it is permanent. */
    method OnTimeOut()
      modifies leafletInstance
      ensures permanent ==> unchanged(leafletInstance)
      ensures !permanent ==> !leafletInstance.isOpen
    {
      if permanent {
        return;
      }
      Close();
    }

    /** `onMouseOut`: clears the pending timer and, unless permanent, schedules `onTimeOut` in 500 ms. */
    method OnMouseOut()
      requires Valid()
      modifies this`timers, this`nextHandle, this`timeoutHandler
      ensures Valid()
      ensures permanent ==> timers == [] && timeoutHandler == old(timeoutHandler)
      ensures !permanent ==>
        && timers == [PendingTimer(old(nextHandle), HoverDelay, HoverTimeOut)]
        && timeoutHandler == Some(old(nextHandle))
    {
      ClearTimeout(timeoutHandler);
      if permanent {
        return;
      }
      var handle := SetTimeout(HoverDelay, HoverTimeOut);
      timeoutHandler := Some(handle);
    }

    /** `onMouseOver`: clears the pending timer. */
    method OnMouseOver()
      requires Valid()
      modifies this`timers
      ensures Valid() && timers == []
    {
      ClearTimeout(timeoutHandler);
    }

    /** The event loop runs the pending timer, if any: either callback closes the popup. */
    method Fire() returns (fired: Option<PendingTimer>)
      requires Valid()
      modifies this`timers, leafletInstance
      ensures Valid() && timers == []
      ensures fired == (if old(timers) == [] then None else Some(old(timers)[0]))
      ensures fired.None? ==> unchanged(leafletInstance)
      ensures fired.Some? ==> !leafletInstance.isOpen
    {
      if timers == [] {
        return None;
      }
      var t := timers[0];
      timers := timers[1..];
      fired := Some(t);
      match t.kind
      case HoverTimeOut => OnTimeOut();
      case CoordinateClose => Close();
    }

    /** `buildPopup`: a new closed popup anchored and offset by the target's kind. */
    method BuildPopup(t: Target) returns (p: LeafletPopup)
      ensures fresh(p) && !p.isOpen && p.content.None?
      ensures p.latLng == Anchor(t) && p.offset == OffsetFor(t)
    {
      p := new LeafletPopup(OffsetFor(t), Anchor(t));
    }

    /**
     * `_getPopup`: the current popup when it is open on the same target;
     * otherwise binds the target, closes the open popup and builds a new one.
     */
    method GetPopup(t: Target) returns (p: LeafletPopup)
      modifies this`target, leafletInstance
      ensures leafletInstance == old(leafletInstance)
      ensures old(Shows(t)) ==> p == leafletInstance && target == old(target) && unchanged(leafletInstance)
      ensures !old(Shows(t)) ==>
        && fresh(p) && !p.isOpen && p.content.None? && p.latLng == Anchor(t) && p.offset == OffsetFor(t)
        && target == Some(t) && !leafletInstance.isOpen
        && leafletInstance.latLng == old(leafletInstance.latLng)
        && leafletInstance.content == old(leafletInstance.content)
    {
      if IsOpen() && target.Some? && target.value.ref == t.ref {
        return leafletInstance;
      }
      target := Some(t);
      if leafletInstance.isOpen {
        Close();
      }
      p := BuildPopup(t);
    }

    /** The branch of `open` for the target the popup is open on: new content, and a line is re-anchored. */
    method Refresh(t: Target, content: Content)
      modifies leafletInstance
      ensures leafletInstance.isOpen == old(leafletInstance.isOpen)
      ensures leafletInstance.content == Some(content)
      ensures leafletInstance.latLng == (if t.PolylineTarget? then SecondVertex(t.vertices) else old(leafletInstance.latLng))
    {
      leafletInstance.SetContent(content);
      if t.PolylineTarget? {
        leafletInstance.SetLatLng(SecondVertex(t.vertices));
      }
    }

    /** The branch of `open` for any other target: bind it, close the old popup, open a new one. */
    method OpenNew(t: Target, content: Content, handler: Option<Layer>)
      requires Valid() && timers == []
      modifies this`target, this`handlerTarget, this`leafletInstance, this`timers, this`nextHandle,
        this`timeoutHandler, leafletInstance
      ensures Valid()
      ensures target == Some(t) && handlerTarget == Some(HandlerOf(handler, t))
      ensures fresh(leafletInstance) && !old(leafletInstance).isOpen
      ensures leafletInstance.isOpen && leafletInstance.content == Some(content)
      ensures leafletInstance.latLng == Anchor(t) && leafletInstance.offset == OffsetFor(t)
      ensures if !permanent && IsCoordinate(HandlerOf(handler, t))
        then timers == [PendingTimer(old(nextHandle), CoordinateDelay, CoordinateClose)]
             && timeoutHandler == Some(old(nextHandle))
        else timers == [] && timeoutHandler == old(timeoutHandler)
    {
      target := Some(t);
      handlerTarget := Some(HandlerOf(handler, t));
      if leafletInstance.isOpen {
        Close();
      }
      var p := GetPopup(t);
      p.SetContent(content);
      leafletInstance := p;
      leafletInstance.Show();
      if permanent {
        return;
      }
      if IsCoordinate(HandlerOf(handler, t)) {
        var handle := SetTimeout(CoordinateDelay, CoordinateClose);
        timeoutHandler := Some(handle);
      }
    }

    /**
     * `open(target, content, handler)`. A target whose tooltip policy refuses
     * changes nothing. Otherwise any pending timer is cleared; re-opening the
     * target the popup is open on only replaces the content (and re-anchors a
     * line at its second vertex); any other target closes the open popup and
     * opens a new one bound to the target, and a non-permanent popup whose
     * handler is a bare coordinate schedules its close in 1000 ms.
     */
    method Open(t: Target, content: Content, handler: Option<Layer>, settings: TooltipSettings)
      requires Valid()
      modifies this`target, this`handlerTarget, this`leafletInstance, this`timers, this`nextHandle,
        this`timeoutHandler, leafletInstance
      ensures Valid()
      ensures !Gate(t, settings) ==> unchanged(this) && unchanged(leafletInstance)
      ensures Gate(t, settings) && old(Shows(t)) ==>
        && leafletInstance == old(leafletInstance)
        && target == old(target) && handlerTarget == old(handlerTarget)
        && leafletInstance.isOpen && leafletInstance.content == Some(content)
        && leafletInstance.latLng == (if t.PolylineTarget? then SecondVertex(t.vertices) else old(leafletInstance.latLng))
        && timers == [] && timeoutHandler == old(timeoutHandler) && nextHandle == old(nextHandle)
      ensures Gate(t, settings) && !old(Shows(t)) ==>
        && target == Some(t) && handlerTarget == Some(HandlerOf(handler, t))
        && fresh(leafletInstance) && !old(leafletInstance).isOpen
        && leafletInstance.isOpen && leafletInstance.content == Some(content)
        && leafletInstance.latLng == Anchor(t) && leafletInstance.offset == OffsetFor(t)
        && (if !permanent && IsCoordinate(HandlerOf(handler, t))
            then timers == [PendingTimer(old(nextHandle), CoordinateDelay, CoordinateClose)]
                 && timeoutHandler == Some(old(nextHandle))
            else timers == [] && timeoutHandler == old(timeoutHandler))
    {
      var tip := TooltipOf(t);
      if tip.Some? && !CanShowTooltip(t, tip.value, settings) {
        return;
      }
      if timeoutHandler.Some? {
        ClearTimeout(timeoutHandler);
      }
      if IsOpen() && target.Some? && target.value.ref == t.ref {
        Refresh(t, content);
      } else {
        OpenNew(t, content, handler);
      }
    }
  }
}
