/** `DeviceProfile`: the integer layout arithmetic of one device
    configuration (cells, paddings, folder bounds) and the list of layout
    listeners. Sizes that the source computes from resources and float icon
    scales are fields of `Layout`, given as inputs. */
module DeviceProfile {
  import opened Java
  import opened Platform

  /** `MAX_HORIZONTAL_PADDING_PERCENT` (the float `0.14f`, here the real 0.14). */
  const MAX_HORIZONTAL_PADDING_PERCENT: real := 0.14

  /** The fields of a `DeviceProfile` (and of its `InvariantDeviceProfile`)
      the modelled operations read. */
  datatype Layout = Layout(
    isTablet: bool,
    isLargeTablet: bool,
    widthPx: int,
    heightPx: int,
    availableWidthPx: int,
    availableHeightPx: int,
    numColumns: int,
    numRows: int,
    cellWidthPx: int,
    cellHeightPx: int,
    dragViewScale: real,
    topWorkspacePadding: int,
    desiredWorkspaceLeftRightMarginPx: int,
    edgeMarginPx: int,
    defaultPageSpacingPx: int,
    dropTargetBarSizePx: int,
    hotseatBarHeightPx: int,
    hotseatLandGutterPx: int,
    pageIndicatorHeightPx: int,
    pageIndicatorLandGutterRightNavBarPx: int,
    overviewModeIconZoneRatio: real,
    overviewModeMinIconZoneHeightPx: int,
    overviewModeMaxIconZoneHeightPx: int,
    insets: Rect)
  {
    /** `isPhone`, set in the constructor from the other two flags. */
    predicate IsPhone() { !isTablet && !isLargeTablet }
  }

  // ---------------------------------------------------------------------
  // Cells and the current orientation

  /** `calculateCellWidth(width, countX)`: Java's `width / countX`. */
  function CalculateCellWidth(width: int, countX: int): (r: Result<int>)
    ensures r.Throws? <==> countX == 0
    ensures r.Throws? ==> r.error == Arithmetic
    ensures r.Ok? && width >= 0 && countX > 0 ==> r.value * countX <= width < (r.value + 1) * countX
  {
    if width >= 0 && countX > 0 then DivBounds(width, countX); CheckedDiv(width, countX)
    else CheckedDiv(width, countX)
  }

  /** `calculateCellHeight(height, countY)`: Java's `height / countY`, the
      same division as `calculateCellWidth`. */
  function CalculateCellHeight(height: int, countY: int): (r: Result<int>)
    ensures r.Throws? <==> countY == 0
    ensures r.Throws? ==> r.error == Arithmetic
    ensures r.Ok? && height >= 0 && countY > 0 ==> r.value * countY <= height < (r.value + 1) * countY
  {
    CalculateCellWidth(height, countY)
  }

  /** `getCurrentWidth()`: the shorter side of the screen. */
  function GetCurrentWidth(d: Layout): (r: int)
    ensures r <= d.widthPx && r <= d.heightPx
    ensures r == d.widthPx || r == d.heightPx
  {
    Min(d.widthPx, d.heightPx)
  }

  /** `getCurrentHeight()`: the longer side of the screen. */
  function GetCurrentHeight(d: Layout): (r: int)
    ensures r >= d.widthPx && r >= d.heightPx
    ensures r == d.widthPx || r == d.heightPx
  {
    Max(d.widthPx, d.heightPx)
  }

  /** The current width never exceeds the current height, and together they
      are the two sides of the screen. */
  lemma CurrentSides(d: Layout)
    ensures GetCurrentWidth(d) <= GetCurrentHeight(d)
    ensures GetCurrentWidth(d) + GetCurrentHeight(d) == d.widthPx + d.heightPx
  {
  }

  // ---------------------------------------------------------------------
  // Overview mode

  /** The unclamped zone height: `(int) (overviewModeIconZoneRatio * availableHeightPx)`. */
  function ZoneHeight(d: Layout): int
  {
    FloatToInt(d.overviewModeIconZoneRatio * d.availableHeightPx as real)
  }

  /** `getOverviewModeButtonBarHeight()`: the zone height clamped to the
      minimum and maximum zone heights (the maximum wins when they cross). */
  function GetOverviewModeButtonBarHeight(d: Layout): (r: int)
    ensures r <= d.overviewModeMaxIconZoneHeightPx
    ensures d.overviewModeMinIconZoneHeightPx <= d.overviewModeMaxIconZoneHeightPx
            ==> d.overviewModeMinIconZoneHeightPx <= r
    ensures d.overviewModeMinIconZoneHeightPx <= ZoneHeight(d) <= d.overviewModeMaxIconZoneHeightPx
            ==> r == ZoneHeight(d)
    ensures ZoneHeight(d) < d.overviewModeMinIconZoneHeightPx <= d.overviewModeMaxIconZoneHeightPx
            ==> r == d.overviewModeMinIconZoneHeightPx
  {
    Min(d.overviewModeMaxIconZoneHeightPx, Max(d.overviewModeMinIconZoneHeightPx, ZoneHeight(d)))
  }

  // ---------------------------------------------------------------------
  // Workspace padding and page spacing

  /** `Math.min` on floats. */
  function MinReal(a: real, b: real): (r: real)
    ensures r <= a && r <= b && (r == a || r == b)
  {
    if a <= b then a else b
  }

  /** The left/right padding the tablet branch leaves: the width the cells
      and their scaled gaps do not use, at most 14% of the width. */
  function TabletPaddingX(d: Layout): (r: int)
    ensures GetCurrentWidth(d) >= 0 ==> r >= 0
  {
    var gapScale := 1.0 + (d.dragViewScale - 1.0) / 2.0;
    var width := GetCurrentWidth(d);
    var used := (d.numColumns * d.cellWidthPx) as real
                + (d.numColumns - 1) as real * gapScale * d.cellWidthPx as real;
    var availablePaddingX := Max(0, width - FloatToInt(used));
    FloatToInt(MinReal(availablePaddingX as real, width as real * MAX_HORIZONTAL_PADDING_PERCENT))
  }

  /** `getWorkspacePadding(recycle)`: no side or top padding with full-width
      widgets; on tablets the unused space split evenly; otherwise the
      desired left/right margin, the top workspace padding, and the hotseat
      bar with the page indicator below. */
  function GetWorkspacePadding(d: Layout, allowFullWidthWidgets: bool): (r: Rect)
    ensures r.left == r.right
    ensures r.bottom >= d.hotseatBarHeightPx + d.pageIndicatorHeightPx
    ensures allowFullWidthWidgets ==> r == Rect(0, 0, 0, d.hotseatBarHeightPx + d.pageIndicatorHeightPx)
    ensures !allowFullWidthWidgets && !d.isTablet
            ==> r == Rect(d.desiredWorkspaceLeftRightMarginPx, d.topWorkspacePadding,
                          d.desiredWorkspaceLeftRightMarginPx, d.hotseatBarHeightPx + d.pageIndicatorHeightPx)
    ensures !allowFullWidthWidgets ==> r.top >= d.topWorkspacePadding
    ensures !allowFullWidthWidgets && d.isTablet && GetCurrentWidth(d) >= 0 ==> r.left >= 0
  {
    var paddingBottom := d.hotseatBarHeightPx + d.pageIndicatorHeightPx;
    if allowFullWidthWidgets then Rect(0, 0, 0, paddingBottom)
    else if d.isTablet then
      var availablePaddingX := TabletPaddingX(d);
      var availablePaddingY := Max(0, GetCurrentHeight(d) - d.topWorkspacePadding - paddingBottom
                                      - 2 * d.numRows * d.cellHeightPx);
      Rect(Div(availablePaddingX, 2), d.topWorkspacePadding + Div(availablePaddingY, 2),
           Div(availablePaddingX, 2), paddingBottom + Div(availablePaddingY, 2))
    else
      Rect(d.desiredWorkspaceLeftRightMarginPx, d.topWorkspacePadding,
           d.desiredWorkspaceLeftRightMarginPx, paddingBottom)
  }

  /** `getWorkspacePageSpacing()`: the default spacing on large tablets,
      otherwise wide enough that neighbouring pages do not overhang the
      workspace's left padding. */
  function GetWorkspacePageSpacing(d: Layout, allowFullWidthWidgets: bool): (r: int)
    ensures r >= d.defaultPageSpacingPx
    ensures d.isLargeTablet ==> r == d.defaultPageSpacingPx
    ensures !d.isLargeTablet ==> r > GetWorkspacePadding(d, allowFullWidthWidgets).left
    ensures !d.isLargeTablet ==> r == d.defaultPageSpacingPx || r == GetWorkspacePadding(d, allowFullWidthWidgets).left + 1
  {
    if d.isLargeTablet then d.defaultPageSpacingPx
    else Max(d.defaultPageSpacingPx, GetWorkspacePadding(d, allowFullWidthWidgets).left + 1)
  }

  // ---------------------------------------------------------------------
  // Folders and containers

  /** `getAbsoluteOpenFolderBounds()`: the available area below the drop
      target bar and above the hotseat and page indicator, one edge margin
      away from each. */
  function GetAbsoluteOpenFolderBounds(d: Layout): (r: Rect)
    ensures r.left == d.insets.left && r.Width() == d.availableWidthPx
    ensures r.Height() == d.availableHeightPx - d.dropTargetBarSizePx - d.hotseatBarHeightPx
                          - d.pageIndicatorHeightPx - 2 * d.edgeMarginPx
    ensures d.edgeMarginPx >= 0 ==> r.top >= d.insets.top + d.dropTargetBarSizePx
    ensures d.edgeMarginPx >= 0
            ==> r.bottom + d.hotseatBarHeightPx + d.pageIndicatorHeightPx <= d.insets.top + d.availableHeightPx
  {
    Rect(d.insets.left,
         d.insets.top + d.dropTargetBarSizePx + d.edgeMarginPx,
         d.insets.left + d.availableWidthPx,
         d.insets.top + d.availableHeightPx - d.hotseatBarHeightPx - d.pageIndicatorHeightPx - d.edgeMarginPx)
  }

  /** `getContainerPadding()`: `[0, 0]` on phones, otherwise half the width
      of the landscape gutters and hotseat on both sides. */
  function GetContainerPadding(d: Layout): (r: seq<int>)
    ensures |r| == 2 && r[0] == r[1]
    ensures d.IsPhone() ==> r == [0, 0]
    ensures !d.IsPhone()
            && d.pageIndicatorLandGutterRightNavBarPx + d.hotseatBarHeightPx + d.hotseatLandGutterPx + d.insets.left >= 0
            ==> 0 <= 2 * r[0]
                <= d.pageIndicatorLandGutterRightNavBarPx + d.hotseatBarHeightPx + d.hotseatLandGutterPx + d.insets.left
                < 2 * r[0] + 2
  {
    if d.IsPhone() then [0, 0]
    else
      var total := d.pageIndicatorLandGutterRightNavBarPx + d.hotseatBarHeightPx + d.hotseatLandGutterPx + d.insets.left;
      var padding := Div(total, 2);
      if total >= 0 then DivBounds(total, 2); [padding, padding] else [padding, padding]
  }

  /** The folder cell sizes `updateAvailableDimensions` sets. */
  datatype FolderCell = FolderCell(widthPx: int, heightPx: int, childDrawablePaddingPx: int)

  /** The folder cell, kept away from the screen edges: at most the icon
      with its cell padding, at most an equal share of the available area;
      the child's drawable padding is never negative. Throws on zero
      folder columns or rows. */
  function FolderCellSize(d: Layout, iconSizePx: int, cellPaddingX: int, cellPaddingY: int,
                          folderChildTextSize: int, folderBottomPanelSize: int,
                          numFolderColumns: int, numFolderRows: int): (r: Result<FolderCell>)
    ensures r.Throws? <==> numFolderColumns == 0 || numFolderRows == 0
    ensures r.Throws? ==> r.error == Arithmetic
    ensures r.Ok? ==> r.value.widthPx <= iconSizePx + 2 * cellPaddingX
    ensures r.Ok? ==> r.value.heightPx <= iconSizePx + 3 * cellPaddingY + folderChildTextSize
    ensures r.Ok? ==> r.value.childDrawablePaddingPx >= 0
    ensures r.Ok? && numFolderColumns > 0 && d.availableWidthPx - 4 * d.edgeMarginPx >= 0
            ==> r.value.widthPx * numFolderColumns <= d.availableWidthPx - 4 * d.edgeMarginPx
    ensures r.Ok? && numFolderRows > 0 && d.availableHeightPx - 4 * d.edgeMarginPx - folderBottomPanelSize >= 0
            ==> r.value.heightPx * numFolderRows <= d.availableHeightPx - 4 * d.edgeMarginPx - folderBottomPanelSize
  {
    if numFolderColumns == 0 || numFolderRows == 0 then Throws(Arithmetic)
    else
      var widthShare := Div(d.availableWidthPx - 4 * d.edgeMarginPx, numFolderColumns);
      var heightShare := Div(d.availableHeightPx - 4 * d.edgeMarginPx - folderBottomPanelSize, numFolderRows);
      var cellWidth := Min(iconSizePx + 2 * cellPaddingX, widthShare);
      var cellHeight := Min(iconSizePx + 3 * cellPaddingY + folderChildTextSize, heightShare);
      ShareBounds(d.availableWidthPx - 4 * d.edgeMarginPx, numFolderColumns, cellWidth);
      ShareBounds(d.availableHeightPx - 4 * d.edgeMarginPx - folderBottomPanelSize, numFolderRows, cellHeight);
      Ok(FolderCell(cellWidth, cellHeight, Max(0, Div(cellHeight - iconSizePx - folderChildTextSize, 3))))
  }

  /** A size at most an equal share of `total` fits `count` times. */
  lemma ShareBounds(total: int, count: int, size: int)
    requires count != 0 && size <= Div(total, count)
    ensures count > 0 && total >= 0 ==> size * count <= total
  {
    if count > 0 && total >= 0 {
      DivBounds(total, count);
      assert size * count <= Div(total, count) * count;
    }
  }

  // ---------------------------------------------------------------------
  // Layout listeners

  /** A `LauncherLayoutChangeListener`, compared by identity. */
  datatype Listener = Listener(id: int)

  predicate NoDuplicates<T(==)>(s: seq<T>)
  {
    forall i, j :: 0 <= i < j < |s| ==> s[i] != s[j]
  }

  /** `ArrayList.remove(Object)`: the list without its first occurrence of `x`. */
  function RemoveFirst<T(==)>(s: seq<T>, x: T): (r: seq<T>)
    ensures multiset(r) == multiset(s) - multiset{x}
  {
    if s == [] then []
    else if s[0] == x then
      assert s == [s[0]] + s[1..];
      s[1..]
    else
      assert s == [s[0]] + s[1..];
      [s[0]] + RemoveFirst(s[1..], x)
  }

  /** On a list without duplicates the removed element is gone and no
      duplicate appears; a list without the element is unchanged. */
  lemma {:induction false} RemoveFirstUnique<T>(s: seq<T>, x: T)
    ensures x !in s ==> RemoveFirst(s, x) == s
    ensures NoDuplicates(s) ==> x !in RemoveFirst(s, x) && NoDuplicates(RemoveFirst(s, x))
  {
    if s != [] {
      assert s == [s[0]] + s[1..];
      RemoveFirstUnique(s[1..], x);
      if s[0] != x {
        var r := RemoveFirst(s, x);
        assert r == [s[0]] + RemoveFirst(s[1..], x);
        if NoDuplicates(s) {
          assert s[0] !in s[1..];
          assert s[0] !in multiset(RemoveFirst(s[1..], x));
        }
      }
    }
  }

  /** Removing a listener just appended gives the list back. */
  lemma {:induction false} RemoveAppended<T>(s: seq<T>, x: T)
    requires x !in s
    ensures RemoveFirst(s + [x], x) == s
  {
    if s != [] {
      assert (s + [x])[1..] == s[1..] + [x];
      RemoveAppended(s[1..], x);
    }
  }

  class DeviceProfile {
    /** The profile's dimensions. */
    const layout: Layout
    /** `mListeners`. */
    var listeners: seq<Listener>

    ghost predicate Valid()
      reads this
    {
      NoDuplicates(listeners)
    }

    constructor (layout: Layout)
      ensures Valid() && this.layout == layout && listeners == []
    {
      this.layout := layout;
      listeners := [];
    }

    /** `addLauncherLayoutChangedListener(listener)`: appended unless present. */
    method AddLauncherLayoutChangedListener(listener: Listener)
      requires Valid()
      modifies this
      ensures Valid()
      ensures listener in old(listeners) ==> listeners == old(listeners)
      ensures listener !in old(listeners) ==> listeners == old(listeners) + [listener]
    {
      if listener !in listeners {
        listeners := listeners + [listener];
      }
    }

    /** `removeLauncherLayoutChangedListener(listener)`: taken out if present. */
    method RemoveLauncherLayoutChangedListener(listener: Listener)
      requires Valid()
      modifies this
      ensures Valid()
      ensures listeners == RemoveFirst(old(listeners), listener)
      ensures listener !in listeners
    {
      RemoveFirstUnique(listeners, listener);
      if listener in listeners {
        listeners := RemoveFirst(listeners, listener);
      }
    }
  }
}
