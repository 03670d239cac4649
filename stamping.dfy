/** The "Portrait Mode" and "Landscape Mode" tabs: a draggable sample text
    on a preview canvas, the position captured from it, the validation of
    the stamp's inputs and the merge of the stamp onto every page of a base
    document. The two tabs are one component with an orientation. */
module Stamping {
  import opened Common
  import PyInt
  import opened StampGeometry

  /** Why a stamp request is turned down. */
  datatype StampError = EmptyText | InvalidFontSize

  /** What a press of "45 Degrees" or "Horizontal" does: turn the inputs
      down, stop at a cancelled file dialog, or write the stamped pages. */
  datatype StampOutcome<P> = Rejected(error: StampError) | Cancelled | Stamped(pages: seq<P>)

  /** Font size used when the entry does not hold a number. */
  const DefaultFontSize: int := 20

  /** The checks made before stamping, in their order: the text must not be
      empty, then the font-size entry must hold an integer. */
  function ValidateStamp(text: string, fontSizeText: string): (r: Result<int, StampError>)
    ensures r == Failure(EmptyText) <==> text == []
    ensures r == Failure(InvalidFontSize) <==> text != [] && PyInt.ParseInt(fontSizeText).None?
    ensures r.Success? ==> PyInt.ParseInt(fontSizeText) == Some(r.value)
  {
    if text == [] then Failure(EmptyText)
    else match PyInt.ParseInt(fontSizeText)
      case None => Failure(InvalidFontSize)
      case Some(size) => Success(size)
  }

  /** The font size of the preview text: the entered size, or 20 when the
      entry is not a number, scaled and truncated, and at least 1. */
  function PreviewFontSize(fontSizeText: string): (s: int)
    ensures s >= 1
    ensures PyInt.ParseInt(fontSizeText).None? ==> s == 8
    ensures PyInt.ParseInt(fontSizeText).Some? && PyInt.ParseInt(fontSizeText).value >= 0 ==>
      s == Max((PyInt.ParseInt(fontSizeText).value as real * 2.0 / 5.0).Floor, 1)
    ensures PyInt.ParseInt(fontSizeText).Some? && PyInt.ParseInt(fontSizeText).value >= 3 ==>
      s <= PyInt.ParseInt(fontSizeText).value
    ensures PyInt.ParseInt(fontSizeText).Some? && PyInt.ParseInt(fontSizeText).value < 3 ==> s == 1
  {
    var size := match PyInt.ParseInt(fontSizeText)
      case None => DefaultFontSize
      case Some(n) => n;
    Max(PyInt.Trunc(size as real * Scale), 1)
  }

  /** Draws the stamp once and merges it onto every base page, in order;
      `merge(page, overlay)` is the PDF library's page merge. */
  method AddTextToExistingPdf<P>(basePages: seq<P>, o: Orientation, text: string, fontSize: int,
                                 pos: PagePoint, angle: Option<int>, color: string, underline: bool,
                                 measure: (string, int) -> real, merge: (P, Overlay) -> P)
    returns (written: seq<P>)
    ensures |written| == |basePages|
    ensures forall i :: 0 <= i < |basePages| ==>
      written[i] == merge(basePages[i], CreateTextOverlay(o, text, fontSize, pos, angle, color, underline, measure))
  {
    var stamp := CreateTextOverlay(o, text, fontSize, pos, angle, color, underline, measure);
    written := [];
    var i := 0;
    while i < |basePages|
      invariant 0 <= i <= |basePages|
      invariant |written| == i
      invariant forall j :: 0 <= j < i ==> written[j] == merge(basePages[j], stamp)
    {
      written := written + [merge(basePages[i], stamp)];
      i := i + 1;
    }
  }

  /** One stamping tab. `textPosition` is where the sample text currently
      sits on the canvas; `finalPosition` is the position captured for
      stamping, unset until "Update Position" or the first stamp request. */
  class StampTab {
    const orientation: Orientation
    var textPosition: CanvasPoint
    var finalPosition: Option<CanvasPoint>

    ghost predicate Valid()
      reads this
    {
      && InCanvas(orientation, textPosition)
      && (finalPosition.Some? ==> InCanvas(orientation, finalPosition.value))
    }

    constructor (o: Orientation)
      ensures Valid()
      ensures orientation == o && textPosition == InitialAnchor(o) && finalPosition == None
    {
      orientation := o;
      textPosition := InitialAnchor(o);
      finalPosition := None;
    }

    /** Dragging the sample text to pointer position (x, y). */
    method DragText(x: int, y: int)
      requires Valid()
      modifies this`textPosition
      ensures Valid()
      ensures textPosition == ClampToCanvas(orientation, x, y)
      ensures finalPosition == old(finalPosition)
    {
      textPosition := ClampToCanvas(orientation, x, y);
    }

    /** "Update Position": capture where the sample text is now. */
    method UpdatePosition()
      requires Valid()
      modifies this`finalPosition
      ensures Valid()
      ensures finalPosition == Some(textPosition)
    {
      finalPosition := Some(textPosition);
    }

    /** The page position to stamp at. The canvas position is captured only
        while none has been captured; later drags do not move the stamp
        until "Update Position" is pressed. */
    method GetTextPosition() returns (pos: PagePoint)
      requires Valid()
      modifies this`finalPosition
      ensures Valid()
      ensures finalPosition == if old(finalPosition).None? then Some(textPosition) else old(finalPosition)
      ensures pos == ToPageCoordinates(orientation, finalPosition.value)
      ensures 0 <= pos.x <= PageSize(orientation).width && 0 <= pos.y <= PageSize(orientation).height
    {
      if finalPosition.None? {
        finalPosition := Some(textPosition);
      }
      pos := ToPageCoordinates(orientation, finalPosition.value);
    }

    /** A stamp request with the entered text, font-size text, colour name,
        underline flag and angle (`None` for "Horizontal"). `basePages` is
        the chosen base document, `None` when that dialog is cancelled;
        `destinationChosen` is false when the save dialog is cancelled. The
        position is captured after validation and before the dialogs. */
    method ProcessTextOverlay<P>(text: string, fontSizeText: string, color: string, underline: bool,
                                 angle: Option<int>, basePages: Option<seq<P>>, destinationChosen: bool,
                                 measure: (string, int) -> real, merge: (P, Overlay) -> P)
      returns (outcome: StampOutcome<P>)
      requires Valid()
      modifies this`finalPosition
      ensures Valid()
      ensures ValidateStamp(text, fontSizeText).Failure? ==>
        outcome == Rejected(ValidateStamp(text, fontSizeText).error) && finalPosition == old(finalPosition)
      ensures ValidateStamp(text, fontSizeText).Success? ==>
        finalPosition == (if old(finalPosition).None? then Some(textPosition) else old(finalPosition))
      ensures ValidateStamp(text, fontSizeText).Success? && (basePages.None? || !destinationChosen) ==>
        outcome == Cancelled
      ensures ValidateStamp(text, fontSizeText).Success? && basePages.Some? && destinationChosen ==>
        var overlay := CreateTextOverlay(orientation, text, ValidateStamp(text, fontSizeText).value,
                                         ToPageCoordinates(orientation, finalPosition.value),
                                         angle, color, underline, measure);
        && outcome.Stamped?
        && |outcome.pages| == |basePages.value|
        && forall i :: 0 <= i < |basePages.value| ==> outcome.pages[i] == merge(basePages.value[i], overlay)
    {
      var checked := ValidateStamp(text, fontSizeText);
      if checked.Failure? {
        return Rejected(checked.error);
      }
      var fontSize := checked.value;
      var pos := GetTextPosition();
      if basePages.None? || !destinationChosen {
        return Cancelled;
      }
      var pages := AddTextToExistingPdf(basePages.value, orientation, text, fontSize, pos, angle,
                                        color, underline, measure, merge);
      outcome := Stamped(pages);
    }
  }
}
