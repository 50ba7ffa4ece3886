/** Value types shared by the widgets: dynamic payloads, Go slices that may be
    nil, pictures, colours and audio buffers. */
module Values {

  datatype Option<+T> = None | Some(value: T)

  /** A Go slice of T: `NilSlice` is the nil slice, `Slice([])` an empty non-nil one. */
  datatype Slice<+T> = NilSlice | Slice(elems: seq<T>) {
    function Items(): seq<T> {
      if NilSlice? then [] else elems
    }
  }

  /** Handles for things whose contents the toolkit never inspects. */
  datatype Picture = Picture(id: nat)
  datatype Buffer = Buffer(id: nat, len: nat)

  datatype Color = Named(name: string) | RGBA(r: real, g: real, b: real, a: real)

  const Grey := Named("grey")
  const Crimson := Named("crimson")
  const Red := Named("red")
  const Darkgrey := Named("darkgrey")

  /** A sprite: the picture it shows and the size of its frame. */
  datatype Sprite = Sprite(picture: Option<Picture>, frameW: real, frameH: real)

  /** The size of a widget: the frame of its background sprite when it has
      one, otherwise its configured size `(w, h)`. */
  function SpriteSize(sprite: Option<Sprite>, w: real, h: real): (r: (real, real))
    ensures sprite.Some? ==> r == (sprite.value.frameW, sprite.value.frameH)
    ensures sprite.None? ==> r == (w, h)
  {
    match sprite
    case Some(s) => (s.frameW, s.frameH)
    case None => (w, h)
  }

  /** The payload kinds stored in `interface{}` slots and switch values. */
  datatype Value =
    | Nil
    | Bool(b: bool)
    | Int(i: int)
    | Str(s: string)
    | Pic(p: Picture)
    | Opaque(id: nat)

  /** Decimal rendering of a count, as `fmt.Sprintf("%d", n)` gives it. */
  function Decimal(n: nat): (r: string)
    ensures |r| > 0
    ensures forall k :: 0 <= k < |r| ==> '0' <= r[k] <= '9'
    decreases n
  {
    if n < 10 then [DigitChar(n)] else Decimal(n / 10) + [DigitChar(n % 10)]
  }

  function DigitChar(d: nat): (c: char)
    requires d < 10
    ensures '0' <= c <= '9' && c as int - '0' as int == d
  {
    ('0' as int + d) as char
  }

  /** Reads a string of decimal digits back as a number. */
  function ParseDecimal(s: string): nat
    requires forall k :: 0 <= k < |s| ==> '0' <= s[k] <= '9'
  {
    if s == [] then 0 else 10 * ParseDecimal(s[..|s| - 1]) + (s[|s| - 1] as int - '0' as int)
  }

  lemma {:induction false} DecimalRoundTrip(n: nat)
    ensures ParseDecimal(Decimal(n)) == n
    decreases n
  {
    if n >= 10 {
      var d := Decimal(n / 10);
      DecimalRoundTrip(n / 10);
      assert (d + [DigitChar(n % 10)])[..|d|] == d;
    }
  }

  /** The count label never has a superfluous leading zero. */
  lemma {:induction false} DecimalNoLeadingZero(n: nat)
    ensures Decimal(n)[0] == '0' ==> n == 0
    decreases n
  {
    if n >= 10 {
      DecimalNoLeadingZero(n / 10);
    }
  }
}
