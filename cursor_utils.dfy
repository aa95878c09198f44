/** Placement of the mention dropdown inside the window. Positions and sizes are in
    whole pixels. */
module CursorUtils {
  const DefaultDropdownWidth: int := 280
  const DefaultDropdownHeight: int := 250

  /** `adjustPositionToViewport`: a dropdown that would pass the bottom edge is
      flipped above the cursor (10 pixels of gap, with no clamp, so the result may
      be negative); a negative left becomes 0; a left past `viewportWidth - width`,
      tested on the original left, becomes that bound, overriding the previous rule. */
  method AdjustPositionToViewport(top: int, left: int, viewportWidth: int, viewportHeight: int,
                                  dropdownWidth: int := DefaultDropdownWidth,
                                  dropdownHeight: int := DefaultDropdownHeight)
    returns (adjustedTop: int, adjustedLeft: int)
    ensures top + dropdownHeight > viewportHeight ==> adjustedTop == top - dropdownHeight - 10
    ensures top + dropdownHeight <= viewportHeight ==> adjustedTop == top
    ensures top + dropdownHeight > viewportHeight && top < dropdownHeight + 10 ==> adjustedTop < 0
    ensures left > viewportWidth - dropdownWidth ==> adjustedLeft == viewportWidth - dropdownWidth
    ensures left <= viewportWidth - dropdownWidth && left < 0 ==> adjustedLeft == 0
    ensures 0 <= left <= viewportWidth - dropdownWidth ==> adjustedLeft == left
    ensures viewportWidth >= dropdownWidth ==> 0 <= adjustedLeft <= viewportWidth - dropdownWidth
  {
    adjustedTop := top;
    adjustedLeft := left;
    if top + dropdownHeight > viewportHeight {
      adjustedTop := top - dropdownHeight - 10;
    }
    if left < 0 {
      adjustedLeft := 0;
    }
    var maxRight := viewportWidth - dropdownWidth;
    if left > maxRight {
      adjustedLeft := maxRight;
    }
  }

  /** In a window narrower than the dropdown, even a left of 0 is moved to the
      negative bound. */
  method NarrowWindowExample() returns (left: int)
    ensures left == -80
  {
    var _, l := AdjustPositionToViewport(0, 0, 200, 800);
    left := l;
  }
}
