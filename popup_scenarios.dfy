/**
 * Event sequences on a newly created popup, as a map produces them: each
 * method builds its own popup, drives it through `open` and the mouse and
 * timer events, and reports what is left open.
 */
module PopupScenarios {
  import opened Wrappers
  import opened LeafletTypes
  import opened PopupController

  /** A coordinate popup closes itself: its one timer is the 1000 ms close, and running it closes the popup. */
  method CoordinatePopupCloses(at: LatLng, content: Content, s: TooltipSettings)
    returns (openBefore: bool, fired: Option<PendingTimer>, openAfter: bool)
    ensures openBefore && !openAfter
    ensures fired.Some? && fired.value.ms == CoordinateDelay && fired.value.kind == CoordinateClose
  {
    var p := new Popup(false);
    p.Open(LatLngTarget(0, at), content, None, s);
    openBefore := p.leafletInstance.isOpen;
    fired := p.Fire();
    openAfter := p.leafletInstance.isOpen;
  }

  /** Leaving a hover popup schedules `onTimeOut` in 500 ms, which closes it. */
  method HoverOutCloses(loc: LatLng, content: Content)
    returns (openBefore: bool, fired: Option<PendingTimer>, openAfter: bool)
    ensures openBefore && !openAfter
    ensures fired.Some? && fired.value.ms == HoverDelay && fired.value.kind == HoverTimeOut
  {
    var p := new Popup(false);
    var s := TooltipSettings(true, true);
    p.Open(MarkerTarget(0, loc, Some(Hover)), content, None, s);
    openBefore := p.leafletInstance.isOpen;
    p.OnMouseOut();
    fired := p.Fire();
    openAfter := p.leafletInstance.isOpen;
  }

  /** Coming back over the popup before the 500 ms pass cancels the close. */
  method HoverBackKeepsOpen(loc: LatLng, content: Content)
    returns (fired: Option<PendingTimer>, openAfter: bool)
    ensures fired.None? && openAfter
  {
    var p := new Popup(false);
    var s := TooltipSettings(true, true);
    p.Open(MarkerTarget(0, loc, Some(Hover)), content, None, s);
    p.OnMouseOut();
    p.OnMouseOver();
    fired := p.Fire();
    openAfter := p.leafletInstance.isOpen;
  }

  /** A permanent popup never schedules a close: mouse-out and the event loop leave it open. */
  method PermanentStaysOpen(at: LatLng, content: Content, s: TooltipSettings)
    returns (fired: Option<PendingTimer>, openAfter: bool)
    ensures fired.None? && openAfter
  {
    var p := new Popup(true);
    p.Open(LatLngTarget(0, at), content, None, s);
    p.OnMouseOut();
    fired := p.Fire();
    openAfter := p.leafletInstance.isOpen;
  }

  /** Re-opening on the same line keeps the same Leaflet popup, with the new content at the second vertex. */
  method ReopenKeepsPopup(vertices: seq<LatLng>, first: Content, second: Content)
    returns (same: bool, content: Option<Content>, anchor: Option<LatLng>, open: bool)
    ensures same && open && content == Some(second) && anchor == SecondVertex(vertices)
  {
    var p := new Popup(false);
    var s := TooltipSettings(true, true);
    var line := PolylineTarget(7, vertices, None);
    p.Open(line, first, None, s);
    var before := p.leafletInstance;
    p.Open(line, second, None, s);
    same := p.leafletInstance == before;
    content := p.leafletInstance.content;
    anchor := p.leafletInstance.latLng;
    open := p.leafletInstance.isOpen;
  }

  /** Opening on another object closes the first popup and opens a new one on the second target. */
  method SwitchTargetReplacesPopup(a: LatLng, b: LatLng, content: Content, s: TooltipSettings)
    returns (same: bool, firstOpen: bool, secondOpen: bool, anchor: Option<LatLng>)
    ensures !same && !firstOpen && secondOpen && anchor == Some(b)
  {
    var p := new Popup(false);
    p.Open(CircleTarget(1, a, None), content, None, s);
    var first := p.leafletInstance;
    p.Open(CircleTarget(2, b, None), content, None, s);
    same := p.leafletInstance == first;
    firstOpen := first.isOpen;
    secondOpen := p.leafletInstance.isOpen;
    anchor := p.leafletInstance.latLng;
  }

  /** A marker whose own setting is "never" (or "always") gets no hover popup. */
  method RefusedTooltipStaysClosed(loc: LatLng, content: Content, never: bool)
    returns (open: bool, bound: bool)
    ensures !open && !bound
  {
    var p := new Popup(false);
    var s := TooltipSettings(true, true);
    p.Open(MarkerTarget(0, loc, Some(if never then Never else Always)), content, None, s);
    open := p.leafletInstance.isOpen;
    bound := p.target.Some?;
  }

  /** With marker tooltips switched off globally, a marker with an unset setting gets no popup, an overlay does. */
  method GlobalSettingDecides(loc: LatLng, content: Content)
    returns (markerOpen: bool, overlayOpen: bool)
    ensures !markerOpen && overlayOpen
  {
    var s := TooltipSettings(false, true);
    var p := new Popup(false);
    p.Open(MarkerTarget(0, loc, Some(Unset)), content, None, s);
    markerOpen := p.leafletInstance.isOpen;
    var q := new Popup(false);
    q.Open(CircleTarget(1, loc, Some(Unset)), content, None, s);
    overlayOpen := q.leafletInstance.isOpen;
  }
}
