/**
 * `SystemBrowserSearchEngines._observer`: how a notification of the browser's
 * search service ("browser-search-engine-modified") becomes an event.
 */
module Observer {
  import opened Wrappers

  /** The events `SystemBrowserSearchEngines` emits. */
  datatype Event = Removed | Added | Changed | Current

  /**
   * The event for a notification subject; `hidden` is the engine's own flag.
   * Hiding is how the service removes a default engine, so a change to a
   * hidden engine is a removal. Unknown subjects emit nothing.
   */
  function Classify(subject: string, hidden: bool): (r: Option<Event>)
    ensures r == Some(Removed) <==> subject == "engine-removed" || (subject == "engine-changed" && hidden)
    ensures r == Some(Added) <==> subject == "engine-added"
    ensures r == Some(Changed) <==> subject == "engine-changed" && !hidden
    ensures r == Some(Current) <==> subject == "engine-current"
    ensures r.None? <==> subject !in {"engine-removed", "engine-added", "engine-changed", "engine-current"}
  {
    if subject == "engine-removed" then Some(Removed)
    else if subject == "engine-added" then Some(Added)
    else if subject == "engine-changed" then (if hidden then Some(Removed) else Some(Changed))
    else if subject == "engine-current" then Some(Current)
    else None
  }
}
