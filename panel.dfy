/**
 * The `resize` handlers of the results panel and the permission panel in
 * lib/main.js: the requested size is clamped to at least 300 wide (meant to
 * be at least the search box's width) and at least 50 high.
 */
module Panel {
  import opened Wrappers

  const MinWidth := 300
  const MinHeight := 50

  function Max(a: int, b: int): (m: int)
    ensures m >= a && m >= b && (m == a || m == b)
  {
    if a >= b then a else b
  }

  /**
   * The handlers as written: `textbox` starts at 300 and the statement meant
   * to read the search box's width discards it, so the width is clamped to
   * 300 only.
   */
  function PanelSize(width: int, height: int): (r: (int, int))
    ensures r.0 >= MinWidth && r.0 >= width && (r.0 == width || r.0 == MinWidth)
    ensures r.1 >= MinHeight && r.1 >= height && (r.1 == height || r.1 == MinHeight)
  {
    var textbox := MinWidth;
    (Max(Max(width, textbox), MinWidth), Max(height, MinHeight))
  }

  /**
   * The evidently intended handlers: `textbox` takes the search box's width
   * when it can be read (`None` when reading it throws), so the panel is
   * never narrower than the box.
   */
  function PanelSizeIntended(width: int, height: int, boxWidth: Option<int>): (r: (int, int))
    ensures r.0 >= MinWidth && r.0 >= width
    ensures boxWidth.Some? ==> r.0 >= boxWidth.value
    ensures r.0 == width || r.0 == MinWidth || (boxWidth.Some? && r.0 == boxWidth.value)
    ensures boxWidth.None? ==> r == PanelSize(width, height)
    ensures r.1 >= MinHeight && r.1 >= height && (r.1 == height || r.1 == MinHeight)
  {
    var textbox := if boxWidth.Some? then boxWidth.value else MinWidth;
    (Max(Max(width, textbox), MinWidth), Max(height, MinHeight))
  }

  /** Clamping is idempotent: resizing to an already clamped size changes nothing. */
  lemma PanelSizeIdempotent(width: int, height: int)
    ensures var r := PanelSize(width, height); PanelSize(r.0, r.1) == r
  {
  }

  /** A 350-wide panel under a 400-wide search box stays 350 wide as written; 400 was intended. */
  lemma NarrowerThanSearchBox()
    ensures PanelSize(350, 100).0 == 350
    ensures PanelSizeIntended(350, 100, Some(400)).0 == 400
  {
  }
}
