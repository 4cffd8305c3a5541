/** The `Sprite` class of spriteutil.py: an axis-aligned box of pixels
    `(x1, y1)`..`(x2, y2)`, inclusive, with a label. Construction validates its
    five arguments and raises `ValueError` on the first bad one. */
module Sprites {
  import opened Python

  /** The message of every `ValueError` raised by `check_value`. */
  const InvalidCoordinates: string := "Invalid coordinates"

  /** What reading `Sprite.label` raises: the getter reads `__label`, but the
      constructor stores the label as `__lable`. */
  const NoLabelAttribute: string := "'Sprite' object has no attribute '_Sprite__label'"

  /** The per-element test of `check_value`: the text of the value holds a minus
      sign, or the value is not exactly an `int`. */
  predicate Rejected(v: Value)
  {
    '-' in Str(v) || !v.Int?
  }

  /** A natural number as Python sees it: an `int` that is not negative. */
  predicate IsNatural(v: Value)
  {
    v.Int? && v.i >= 0
  }

  /** The arguments a sprite can be built from: five natural numbers whose
      corners are not inverted. */
  predicate ValidSpriteArgs(spriteLabel: Value, x1: Value, y1: Value, x2: Value, y2: Value)
  {
    IsNatural(spriteLabel) && IsNatural(x1) && IsNatural(y1) && IsNatural(x2) && IsNatural(y2) &&
    x1.i <= x2.i && y1.i <= y2.i
  }

  /** The element test rejects exactly the values that are not natural numbers. */
  lemma RejectedIffNotNatural(v: Value)
    ensures Rejected(v) <==> !IsNatural(v)
  {
    if v.Int? {
      MinusInIntToStringIffNegative(v.i);
    }
  }

  /** `check_value(label, x1, y1, x2, y2)`: test each argument in turn, then the
      order of the corners; the first failed test raises `ValueError`. */
  method CheckValue(spriteLabel: Value, x1: Value, y1: Value, x2: Value, y2: Value) returns (outcome: Outcome)
    ensures outcome.Pass? <==> ValidSpriteArgs(spriteLabel, x1, y1, x2, y2)
    ensures outcome.Fail? ==> outcome.error == ValueError(InvalidCoordinates)
  {
    var values := [spriteLabel, x1, y1, x2, y2];
    for k := 0 to |values|
      invariant forall j :: 0 <= j < k ==> IsNatural(values[j])
    {
      var element := values[k];
      RejectedIffNotNatural(element);
      if Rejected(element) {
        return Fail(ValueError(InvalidCoordinates));
      }
    }
    assert IsNatural(values[0]) && IsNatural(values[1]) && IsNatural(values[2])
        && IsNatural(values[3]) && IsNatural(values[4]);
    if x2.i < x1.i || y2.i < y1.i {
      return Fail(ValueError(InvalidCoordinates));
    }
    return Pass;
  }

  /** The sequence of whole numbers `lo`, `lo + 1`, ..., `hi` (empty when `hi < lo`). */
  function Span(lo: nat, hi: nat): seq<nat>
    decreases hi + 1 - lo
  {
    if hi < lo then [] else [lo] + Span(lo + 1, hi)
  }

  /** `Span(lo, hi)` holds each number from `lo` to `hi` once, in increasing order. */
  lemma {:induction false} SpanIsInterval(lo: nat, hi: nat)
    ensures |Span(lo, hi)| == if hi < lo then 0 else hi - lo + 1
    ensures forall k :: 0 <= k < |Span(lo, hi)| ==> Span(lo, hi)[k] == lo + k
    decreases hi + 1 - lo
  {
    if lo <= hi {
      SpanIsInterval(lo + 1, hi);
    }
  }

  /** A constructed sprite. Every field is assigned once, by the constructor. */
  class Sprite {
    const x1: nat
    const y1: nat
    const x2: nat
    const y2: nat
    /** The label, kept under the attribute name the constructor uses, `__lable`. */
    const lable: nat
    const topLeft: (nat, nat)
    const bottomRight: (nat, nat)

    /** The box is not inverted and the cached corners agree with the coordinates. */
    ghost predicate Valid()
    {
      x1 <= x2 && y1 <= y2 && topLeft == (x1, y1) && bottomRight == (x2, y2)
    }

    /** The assignments of `__init__` that follow a successful `check_value`. */
    constructor (spriteLabel: nat, x1: nat, y1: nat, x2: nat, y2: nat)
      requires x1 <= x2 && y1 <= y2
      ensures Valid()
      ensures this.x1 == x1 && this.y1 == y1 && this.x2 == x2 && this.y2 == y2
      ensures lable == spriteLabel
    {
      this.x1 := x1;
      this.y1 := y1;
      this.x2 := x2;
      this.y2 := y2;
      lable := spriteLabel;
      topLeft := (x1, y1);
      bottomRight := (x2, y2);
    }

    /** The `label` property, which always raises: it reads an attribute the
        constructor never sets. */
    function Label(): (r: Result<nat>)
      ensures r.Failure? && r.error.AttributeError?
    {
      Failure(AttributeError(NoLabelAttribute))
    }

    /** The `top_left` property: the cached upper-left corner. */
    function TopLeft(): (p: (nat, nat))
      requires Valid()
      ensures p == (x1, y1)
    {
      topLeft
    }

    /** The `width` property: the number of pixel columns the box covers. */
    function Width(): (w: nat)
      requires Valid()
      ensures w >= 1
      ensures w == |Span(x1, x2)|
      ensures x1 + w - 1 == x2
    {
      SpanIsInterval(x1, x2);
      x2 - x1 + 1
    }

    /** The `height` property: the number of pixel rows the box covers. */
    function Height(): (h: nat)
      requires Valid()
      ensures h >= 1
      ensures h == |Span(y1, y2)|
      ensures y1 + h - 1 == y2
    {
      SpanIsInterval(y1, y2);
      y2 - y1 + 1
    }
  }

  /** `Sprite(label, x1, y1, x2, y2)`: validate the arguments, then build the
      sprite, or raise `ValueError`. */
  method NewSprite(spriteLabel: Value, x1: Value, y1: Value, x2: Value, y2: Value) returns (r: Result<Sprite>)
    ensures r.Success? <==> ValidSpriteArgs(spriteLabel, x1, y1, x2, y2)
    ensures r.Failure? ==> r.error == ValueError(InvalidCoordinates)
    ensures r.Success? ==> fresh(r.value) && r.value.Valid()
    ensures r.Success? ==> r.value.lable == spriteLabel.i && r.value.x1 == x1.i && r.value.y1 == y1.i
                             && r.value.x2 == x2.i && r.value.y2 == y2.i
  {
    var checked := CheckValue(spriteLabel, x1, y1, x2, y2);
    if checked.Fail? {
      return Failure(checked.error);
    }
    var sprite := new Sprite(spriteLabel.i, x1.i, y1.i, x2.i, y2.i);
    return Success(sprite);
  }

  /** The default argument of every parameter of the constructor. */
  const PyNone: Value := Other("None")

  /** Calls a caller can make, and what each one gives. */
  method ConstructionScenarios()
  {
    var s := NewSprite(Int(0), Int(0), Int(0), Int(0), Int(0));
    assert s.Success?;
    var w := s.value.Width();
    var h := s.value.Height();
    assert w == 1 && h == 1 && s.value.TopLeft() == (0, 0);
    assert s.value.Label().Failure?;

    var t := NewSprite(Int(7), Int(1), Int(1), Int(2), Int(2));
    assert t.Success? && t.value.bottomRight == (2, 2);
    w := t.value.Width();
    assert w == 2;

    var u := NewSprite(PyNone, PyNone, PyNone, PyNone, PyNone);
    assert u == Failure(ValueError(InvalidCoordinates));
    u := NewSprite(Other("True"), Int(0), Int(0), Int(1), Int(1));
    assert u.Failure?;
    u := NewSprite(Int(1), Int(-1), Int(0), Int(1), Int(1));
    assert u.Failure?;
    u := NewSprite(Int(1), Int(3), Int(0), Int(2), Int(1));
    assert u.Failure?;
    u := NewSprite(Int(1), Int(0), Int(3), Int(1), Int(2));
    assert u.Failure?;
  }
}
