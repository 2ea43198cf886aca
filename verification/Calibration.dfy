/**
 * From a layer's frame to its place on the panel: choice of the calibrated rectangle
 * (hwc2/MesonHwc2.cpp), the zoom of the display (hwc2/Hwc2Display.cpp) and the scaling of
 * each edge (hwc2/Hwc2Layer.cpp), in exact arithmetic where the program uses floats.
 */
module Calibration {

  const ENOENT := 2

  datatype Rect = Rect(x: int, y: int, w: int, h: int)
  datatype FrameRect = FrameRect(left: int, top: int, right: int, bottom: int)
  datatype Panel = Panel(w: int, h: int)
  /** `display_zoom_info_t`. */
  datatype Zoom = Zoom(fbW: int, fbH: int, crtc: Rect)

  predicate Fits(r: Rect, panel: Panel) {
    r.x >= 0 && r.y >= 0 && r.w > 0 && r.h > 0 && r.x + r.w <= panel.w && r.y + r.h <= panel.h
  }

  /** The rectangle of the panel that is used. */
  function Chosen(panel: Panel, viewPort: Rect, preCalibrated: bool, keystone: bool): Rect {
    var r := if !preCalibrated && Fits(viewPort, panel) then viewPort else Rect(0, 0, panel.w, panel.h);
    if keystone then Rect(r.x + 1, r.y + 1, r.w - 2, r.h - 2) else r
  }

  /** The keystone inset leaves something of the rectangle. */
  predicate RoomForInset(whole: Rect, keystone: bool) {
    keystone ==> whole.w >= 3 && whole.h >= 3
  }

  /** `ceil(n / d)`. */
  function CeilDiv(n: int, d: int): int
    requires d > 0
  {
    -((-n) / d)
  }

  function Edge(v: int, fb: int, size: int, offset: int): int
    requires fb > 0
  {
    CeilDiv(v * size, fb) + offset
  }

  predicate NoScale(z: Zoom) {
    z.fbW == z.crtc.w && z.fbH == z.crtc.h
  }

  /** The tunnel frame where it has a positive edge, else the frame that was set. */
  function Source(vt: FrameRect, backup: FrameRect): FrameRect {
    if vt.left > 0 || vt.top > 0 || vt.right > 0 || vt.bottom > 0 then vt else backup
  }

  function Adjusted(z: Zoom, f: FrameRect, isVirtual: bool): FrameRect
    requires z.fbW > 0 && z.fbH > 0
  {
    if NoScale(z) || isVirtual then f
    else FrameRect(Edge(f.left, z.fbW, z.crtc.w, z.crtc.x), Edge(f.top, z.fbH, z.crtc.h, z.crtc.y),
               Edge(f.right, z.fbW, z.crtc.w, z.crtc.x), Edge(f.bottom, z.fbH, z.crtc.h, z.crtc.y))
  }

  // ---- the rectangle ----

  /** The chosen rectangle lies on the panel; it is not empty exactly when the inset leaves something. */
  lemma ChosenLiesOnPanel(panel: Panel, viewPort: Rect, preCalibrated: bool, keystone: bool)
    requires panel.w > 0 && panel.h > 0
    ensures var r := Chosen(panel, viewPort, preCalibrated, keystone);
            var whole := Chosen(panel, viewPort, preCalibrated, false);
            && r.x >= 0 && r.y >= 0 && r.x + r.w <= panel.w && r.y + r.h <= panel.h
            && Fits(whole, panel)
            && (Fits(r, panel) <==> RoomForInset(whole, keystone))
            && (whole == viewPort || whole == Rect(0, 0, panel.w, panel.h))
            && (!preCalibrated && Fits(viewPort, panel) ==> whole == viewPort)
  {
  }

  // ---- one edge ----

  /** The defining property of the ceiling. */
  lemma CeilDivFacts(n: int, d: int)
    requires d > 0
    ensures (CeilDiv(n, d) - 1) * d < n <= CeilDiv(n, d) * d
  {
  }

  /** There is only one integer with that property. */
  lemma CeilDivUnique(n: int, d: int, k: int)
    requires d > 0 && (k - 1) * d < n <= k * d
    ensures CeilDiv(n, d) == k
  {
    CeilDivFacts(n, d);
    hide CeilDiv;
    var c := CeilDiv(n, d);
    if c > k {
      TimesMonotone(k, c - 1, d);
    } else if c < k {
      TimesMonotone(c, k - 1, d);
    }
  }

  lemma TimesMonotone(a: int, b: int, d: int)
    requires d > 0 && a <= b
    ensures a * d <= b * d
  {
  }

  lemma CeilDivMonotone(a: int, b: int, d: int)
    requires d > 0 && a <= b
    ensures CeilDiv(a, d) <= CeilDiv(b, d)
  {
    CeilDivFacts(a, d);
    CeilDivFacts(b, d);
    hide CeilDiv;
    var x, y := CeilDiv(a, d), CeilDiv(b, d);
    if x > y {
      TimesMonotone(y, x - 1, d);
    }
  }

  lemma EdgeMonotone(a: int, b: int, fb: int, size: int, offset: int)
    requires fb > 0 && size >= 0 && a <= b
    ensures Edge(a, fb, size, offset) <= Edge(b, fb, size, offset)
  {
    assert a * size <= b * size;
    CeilDivMonotone(a * size, b * size, fb);
  }

  /** The framebuffer's own edges land on the edges of the rectangle. */
  lemma EdgeEnds(fb: int, size: int, offset: int)
    requires fb > 0
    ensures Edge(0, fb, size, offset) == offset && Edge(fb, fb, size, offset) == offset + size
  {
    CeilDivUnique(0, fb, 0);
    assert (size - 1) * fb == fb * size - fb;
    CeilDivUnique(fb * size, fb, size);
  }

  /** An edge inside the framebuffer lands inside the rectangle. */
  lemma EdgeInside(v: int, fb: int, size: int, offset: int)
    requires fb > 0 && size >= 0 && 0 <= v <= fb
    ensures offset <= Edge(v, fb, size, offset) <= offset + size
  {
    EdgeEnds(fb, size, offset);
    EdgeMonotone(0, v, fb, size, offset);
    EdgeMonotone(v, fb, fb, size, offset);
  }

  /** The distance of two edges is within one pixel of the exact scaled distance. */
  lemma EdgeDistance(a: int, b: int, fb: int, size: int, offset: int)
    requires fb > 0
    ensures var got := (Edge(b, fb, size, offset) - Edge(a, fb, size, offset)) * fb;
            (b - a) * size - fb < got < (b - a) * size + fb
  {
  }

  // ---- a frame ----

  predicate InFramebuffer(f: FrameRect, z: Zoom) {
    0 <= f.left <= f.right <= z.fbW && 0 <= f.top <= f.bottom <= z.fbH
  }

  predicate OnPanel(f: FrameRect, panel: Panel) {
    0 <= f.left <= f.right <= panel.w && 0 <= f.top <= f.bottom <= panel.h
  }

  predicate InRect(f: FrameRect, r: Rect) {
    r.x <= f.left <= f.right <= r.x + r.w && r.y <= f.top <= f.bottom <= r.y + r.h
  }

  predicate WithinOnePixel(got: int, exact: int, size: int, fb: int) {
    exact * size - fb < got * fb < exact * size + fb
  }

  /**
   * Any frame inside the framebuffer lands on the panel with its edges in order, for every
   * viewport and with or without the keystone inset, as long as the rectangle is not empty;
   * when it is scaled, width and height are within one pixel of the exact size.
   */
  lemma FrameLandsOnPanel(panel: Panel, viewPort: Rect, preCalibrated: bool, keystone: bool, z: Zoom, f: FrameRect)
    requires panel.w > 0 && panel.h > 0 && RoomForInset(Chosen(panel, viewPort, preCalibrated, false), keystone)
    requires z.fbW > 0 && z.fbH > 0 && z.crtc == Chosen(panel, viewPort, preCalibrated, keystone) && InFramebuffer(f, z)
    ensures var g := Adjusted(z, f, false);
            && OnPanel(g, panel)
            && (!NoScale(z) ==>
                  InRect(g, z.crtc) && SizedLike(g, f, z))
  {
    ChosenLiesOnPanel(panel, viewPort, preCalibrated, keystone);
    if !NoScale(z) {
      ScaledFrame(z, f);
    }
  }

  lemma ScaledFrame(z: Zoom, f: FrameRect)
    requires z.fbW > 0 && z.fbH > 0 && z.crtc.w >= 0 && z.crtc.h >= 0 && !NoScale(z) && InFramebuffer(f, z)
    ensures var g := Adjusted(z, f, false);
            InRect(g, z.crtc) && SizedLike(g, f, z)
  {
    var c := z.crtc;
    EdgeInside(f.left, z.fbW, c.w, c.x);
    EdgeInside(f.right, z.fbW, c.w, c.x);
    EdgeInside(f.top, z.fbH, c.h, c.y);
    EdgeInside(f.bottom, z.fbH, c.h, c.y);
    EdgeMonotone(f.left, f.right, z.fbW, c.w, c.x);
    EdgeMonotone(f.top, f.bottom, z.fbH, c.h, c.y);
    EdgeDistance(f.left, f.right, z.fbW, c.w, c.x);
    EdgeDistance(f.top, f.bottom, z.fbH, c.h, c.y);
  }

  /**
   * Of the two frames a layer has, the tunnel's replaces the one that was set unless it
   * was never given (and is all zero): so for every tunnel frame inside the framebuffer.
   */
  lemma TunnelFrameWins(z: Zoom, vt: FrameRect, backup: FrameRect)
    requires InFramebuffer(vt, z)
    ensures Source(vt, backup) == if vt == FrameRect(0, 0, 0, 0) then backup else vt
  {
  }

  /** `got` has the size of `f`, scaled, within one pixel. */
  predicate SizedLike(got: FrameRect, f: FrameRect, z: Zoom) {
    && WithinOnePixel(got.right - got.left, f.right - f.left, z.crtc.w, z.fbW)
    && WithinOnePixel(got.bottom - got.top, f.bottom - f.top, z.crtc.h, z.fbH)
  }

  /**
   * A frame that covers the framebuffer covers the calibrated rectangle exactly when it is
   * scaled or the rectangle starts at the panel's origin: without scaling the offset is not applied.
   */
  lemma WholeFrameFillsRectIff(z: Zoom)
    requires z.fbW > 0 && z.fbH > 0
    ensures Adjusted(z, FrameRect(0, 0, z.fbW, z.fbH), false)
            == FrameRect(z.crtc.x, z.crtc.y, z.crtc.x + z.crtc.w, z.crtc.y + z.crtc.h)
            <==> !NoScale(z) || (z.crtc.x == 0 && z.crtc.y == 0)
  {
    EdgeEnds(z.fbW, z.crtc.w, z.crtc.x);
    EdgeEnds(z.fbH, z.crtc.h, z.crtc.y);
  }

  /** The frames share no pixel: one lies beside or above the other. */
  predicate Apart(f: FrameRect, g: FrameRect) {
    f.right <= g.left || g.right <= f.left || f.bottom <= g.top || g.bottom <= f.top
  }

  predicate Covers(f: FrameRect, g: FrameRect) {
    f.left <= g.left && g.right <= f.right && f.top <= g.top && g.bottom <= f.bottom
  }

  /**
   * Frames that do not overlap still do not, and a frame that covers another one still
   * does: rounding to pixels neither makes neighbours overlap nor opens a view of what was hidden.
   */
  lemma ArrangementIsKept(z: Zoom, f: FrameRect, g: FrameRect)
    requires z.fbW > 0 && z.fbH > 0 && z.crtc.w >= 0 && z.crtc.h >= 0
    ensures Apart(f, g) ==> Apart(Adjusted(z, f, false), Adjusted(z, g, false))
    ensures Covers(f, g) ==> Covers(Adjusted(z, f, false), Adjusted(z, g, false))
  {
    var c := z.crtc;
    EdgesKeepOrder(z.fbW, c.w, c.x);
    EdgesKeepOrder(z.fbH, c.h, c.y);
  }

  lemma EdgesKeepOrder(fb: int, size: int, offset: int)
    requires fb > 0 && size >= 0
    ensures forall a, b :: a <= b ==> Edge(a, fb, size, offset) <= Edge(b, fb, size, offset)
  {
    forall a: int, b: int | a <= b ensures Edge(a, fb, size, offset) <= Edge(b, fb, size, offset) {
      EdgeMonotone(a, b, fb, size, offset);
    }
  }

  // ---- the objects ----

  class CalibratedDisplay {
    var mDisplayMode: Panel
    var mConfigWidth: int
    var mConfigHeight: int
    var mCalibrateCoordinates: Rect
    var mCalibrateInfo: Zoom

    constructor (mode: Panel, configWidth: int, configHeight: int)
      ensures mDisplayMode == mode && mConfigWidth == configWidth && mConfigHeight == configHeight
    {
      mDisplayMode, mConfigWidth, mConfigHeight := mode, configWidth, configHeight;
      mCalibrateCoordinates := Rect(0, 0, 0, 0);
      mCalibrateInfo := Zoom(0, 0, Rect(0, 0, 0, 0));
    }

    /** `MesonHwc2::setCalibrateInfo` and the setter it ends in. */
    method SetCalibrateInfo(viewPort: Rect, preCalibrated: bool, keystone: bool)
      modifies this`mCalibrateCoordinates
      ensures mCalibrateCoordinates == Chosen(mDisplayMode, viewPort, preCalibrated, keystone)
    {
      var caliX, caliY := 0, 0;
      var caliW, caliH := mDisplayMode.w, mDisplayMode.h;
      if !preCalibrated && viewPort.x >= 0 && viewPort.y >= 0 && viewPort.w > 0 && viewPort.h > 0
         && viewPort.x + viewPort.w <= mDisplayMode.w && viewPort.y + viewPort.h <= mDisplayMode.h
      {
        caliX, caliY := viewPort.x, viewPort.y;
        caliW, caliH := viewPort.w, viewPort.h;
      }
      if keystone {
        caliX, caliY := caliX + 1, caliY + 1;
        caliW, caliH := caliW - 2, caliH - 2;
      }
      mCalibrateCoordinates := Rect(caliX, caliY, caliW, caliH);
    }

    method LoadCalibrateInfo() returns (ret: int)
      modifies this`mCalibrateInfo
      ensures ret == (if mDisplayMode.w == 0 || mDisplayMode.h == 0 then -ENOENT else 0)
      ensures mCalibrateInfo == if ret == 0 then Zoom(mConfigWidth, mConfigHeight, mCalibrateCoordinates)
                                else old(mCalibrateInfo)
    {
      if mDisplayMode.w == 0 || mDisplayMode.h == 0 {
        return -ENOENT;
      }
      mCalibrateInfo := Zoom(mConfigWidth, mConfigHeight, mCalibrateCoordinates);
      ret := 0;
    }
  }

  class LayerFrame {
    const mIsVirtualLayer: bool
    var mCalibrateInfo: Zoom
    var mVtDisplayFrame: FrameRect
    var mBackupDisplayFrame: FrameRect
    var mDisplayFrame: FrameRect

    constructor (isVirtual: bool, frame: FrameRect)
      ensures mIsVirtualLayer == isVirtual && mBackupDisplayFrame == frame && mVtDisplayFrame == FrameRect(0, 0, 0, 0)
    {
      mIsVirtualLayer, mBackupDisplayFrame, mDisplayFrame := isVirtual, frame, frame;
      mVtDisplayFrame, mCalibrateInfo := FrameRect(0, 0, 0, 0), Zoom(0, 0, Rect(0, 0, 0, 0));
    }

    method AdjustDisplayFrame(calibrateInfo: Zoom)
      requires calibrateInfo.fbW > 0 && calibrateInfo.fbH > 0
      modifies this`mCalibrateInfo, this`mDisplayFrame
      ensures mCalibrateInfo == calibrateInfo
      ensures mDisplayFrame == Adjusted(calibrateInfo, Source(mVtDisplayFrame, mBackupDisplayFrame), mIsVirtualLayer)
    {
      mCalibrateInfo := calibrateInfo;
      var noScale := mCalibrateInfo.fbW == mCalibrateInfo.crtc.w && mCalibrateInfo.fbH == mCalibrateInfo.crtc.h;
      var dispFrame := mBackupDisplayFrame;
      if mVtDisplayFrame.left > 0 || mVtDisplayFrame.top > 0 || mVtDisplayFrame.right > 0
          || mVtDisplayFrame.bottom > 0 {
        dispFrame := mVtDisplayFrame;
      }
      if noScale || mIsVirtualLayer {
        mDisplayFrame := dispFrame;
      } else {
        var crtc := mCalibrateInfo.crtc;
        var left := CeilDiv(dispFrame.left * crtc.w, mCalibrateInfo.fbW) + crtc.x;
        var top := CeilDiv(dispFrame.top * crtc.h, mCalibrateInfo.fbH) + crtc.y;
        var right := CeilDiv(dispFrame.right * crtc.w, mCalibrateInfo.fbW) + crtc.x;
        var bottom := CeilDiv(dispFrame.bottom * crtc.h, mCalibrateInfo.fbH) + crtc.y;
        mDisplayFrame := FrameRect(left, top, right, bottom);
      }
    }

    /**
     * The whole way: the frame the display shows for a layer frame inside the framebuffer
     * lies on the panel, and has the size of the tunnel's frame if that is inside too and
     * has been given, else of the one that was set.
     */
    method Place(display: CalibratedDisplay, viewPort: Rect, preCalibrated: bool, keystone: bool) returns (ret: int)
      requires !mIsVirtualLayer && display.mConfigWidth > 0 && display.mConfigHeight > 0
      requires display.mDisplayMode.w > 0 && display.mDisplayMode.h > 0
      requires RoomForInset(Chosen(display.mDisplayMode, viewPort, preCalibrated, false), keystone)
      requires InFramebuffer(Source(mVtDisplayFrame, mBackupDisplayFrame),
                             Zoom(display.mConfigWidth, display.mConfigHeight, Rect(0, 0, 0, 0)))
      modifies this`mCalibrateInfo, this`mDisplayFrame, display`mCalibrateCoordinates, display`mCalibrateInfo
      ensures ret == 0 && OnPanel(mDisplayFrame, display.mDisplayMode)
      ensures var z := display.mCalibrateInfo;
              && z == Zoom(display.mConfigWidth, display.mConfigHeight,
                           Chosen(display.mDisplayMode, viewPort, preCalibrated, keystone))
              && (InFramebuffer(mVtDisplayFrame, z) ==>
                    var f := if mVtDisplayFrame == FrameRect(0, 0, 0, 0) then mBackupDisplayFrame else mVtDisplayFrame;
                    if NoScale(z) then mDisplayFrame == f
                    else SizedLike(mDisplayFrame, f, z) && InRect(mDisplayFrame, z.crtc))
    {
      display.SetCalibrateInfo(viewPort, preCalibrated, keystone);
      ret := display.LoadCalibrateInfo();
      AdjustDisplayFrame(display.mCalibrateInfo);
      if InFramebuffer(mVtDisplayFrame, display.mCalibrateInfo) {
        TunnelFrameWins(display.mCalibrateInfo, mVtDisplayFrame, mBackupDisplayFrame);
      }
      FrameLandsOnPanel(display.mDisplayMode, viewPort, preCalibrated, keystone, display.mCalibrateInfo,
                        Source(mVtDisplayFrame, mBackupDisplayFrame));
    }
  }
}
