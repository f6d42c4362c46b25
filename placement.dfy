/** The placement base every tile is built on: it remembers where its page
    element sits relative to the viewport's centre (`pos`) and moves the
    scene object vertically by the scroll translate (`position`). */
module Placement {
  import opened Common

  /** A bounding client rect: page-space left/top corner and size. */
  datatype Rect = Rect(left: real, top: real, width: real, height: real)

  /** The vector from the viewport's centre to the rect's centre. */
  function CentreOffset(r: Rect, W: real, H: real): (p: (real, real))
    ensures W / 2.0 + p.0 == r.left + r.width / 2.0
    ensures H / 2.0 + p.1 == r.top + r.height / 2.0
  {
    (r.left + r.width / 2.0 - W / 2.0, r.top + r.height / 2.0 - H / 2.0)
  }

  /** A rect centred in the viewport sits at the scene's origin, and moving
      the rect moves its offset by the same amount. */
  lemma CentreOffsetTracksRect(r: Rect, W: real, H: real, dx: real, dy: real)
    ensures (r.left + r.width / 2.0 == W / 2.0 && r.top + r.height / 2.0 == H / 2.0)
      ==> CentreOffset(r, W, H) == (0.0, 0.0)
    ensures CentreOffset(r.(left := r.left + dx, top := r.top + dy), W, H)
              == (CentreOffset(r, W, H).0 + dx, CentreOffset(r, W, H).1 + dy)
  {
  }

  /** JavaScript truthiness of the optional number passed to `update`: a
      missing argument and zero are both falsy. */
  predicate Truthy(current: Option<real>)
  {
    current.Some? && current.value != 0.0
  }

  /** The vertical position after `update(current)` from position `y`. */
  function Translated(y: real, posY: real, current: Option<real>): (r: real)
    ensures Truthy(current) ==> r - posY == current.value
    ensures !Truthy(current) ==> r == y
  {
    if Truthy(current) then current.value + posY else y
  }

  /** Applying the same translate twice is the same as applying it once, and
      the position it yields does not depend on where the object was. */
  lemma TranslatedIdempotent(y: real, y': real, posY: real, current: Option<real>)
    ensures Translated(Translated(y, posY, current), posY, current) == Translated(y, posY, current)
    ensures Truthy(current) ==> Translated(y, posY, current) == Translated(y', posY, current)
  {
  }

  class TileBase {
    var rect: Rect
    /** Centre offset of the element, fixed at the last resize. */
    var posX: real
    var posY: real
    /** The scene object's position (its z is never assigned and stays 0). */
    var positionX: real
    var positionY: real

    /** `init(el)`: the scene object starts at the origin, then is resized. */
    constructor Init(r: Rect, W: real, H: real)
      ensures rect == r
      ensures (posX, posY) == CentreOffset(r, W, H)
      ensures positionX == posX && positionY == posY
    {
      rect := r;
      posX, posY := 0.0, 0.0;
      positionX, positionY := 0.0, 0.0;
      new;
      Resize(r, W, H);
    }

    /** Re-measures the element and places the object at its centre offset;
        the trailing `update()` has no argument and so changes nothing. */
    method Resize(r: Rect, W: real, H: real)
      modifies this
      ensures rect == r
      ensures (posX, posY) == CentreOffset(r, W, H)
      ensures positionX == posX && positionY == posY
    {
      rect := r;
      var p := CentreOffset(r, W, H);
      posX, posY := p.0, p.1;
      positionX := posX;
      positionY := posY;
      Update(None);
    }

    /** `update(current)`: a truthy translate moves the object to
        `current + pos.y`; a zero or missing one leaves it where it is.
        Neither `position.x` nor `pos` ever changes here. */
    method Update(current: Option<real>)
      modifies this`positionY
      ensures positionY == Translated(old(positionY), posY, current)
    {
      if Truthy(current) {
        positionY := current.value + posY;
      }
    }
  }
}
