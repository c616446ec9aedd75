/** The immutable RGB triple of src/model/image/RGBPixel.java. */
module RGBPixels {
  import opened Outcomes

  /** The three channels of a pixel, before any range check. */
  datatype RGBPixel = RGBPixel(red: int, green: int, blue: int)

  const MaxChannel: int := 255

  predicate InChannelRange(c: int) { 0 <= c <= MaxChannel }

  predicate IsValid(p: RGBPixel) {
    InChannelRange(p.red) && InChannelRange(p.green) && InChannelRange(p.blue)
  }

  /** A constructed pixel: its final fields always hold channels in [0, 255]. */
  type Pixel = p: RGBPixel | IsValid(p) witness RGBPixel(0, 0, 0)

  const Black: Pixel := RGBPixel(0, 0, 0)

  /** The range-checked constructor `new RGBPixel(red, green, blue)`. */
  function NewRGBPixel(red: int, green: int, blue: int): (r: Result<Pixel>)
    ensures r.Success? <==> InChannelRange(red) && InChannelRange(green) && InChannelRange(blue)
    ensures r.Success? ==> r.value.red == red && r.value.green == green && r.value.blue == blue
    ensures r.Failure? ==> r.error == OutOfRange && IsIllegalArgument(r.error)
  {
    if red < 0 || red > 255 || green < 0 || green > 255 || blue < 0 || blue > 255 then
      Failure(OutOfRange)
    else
      Success(RGBPixel(red, green, blue))
  }

  /** The channel triple of `p` as a pixel, when it passes the constructor's check. */
  function Construct(p: RGBPixel): (r: Result<Pixel>)
    ensures r.Success? <==> IsValid(p)
    ensures r.Success? ==> r.value == p
  {
    NewRGBPixel(p.red, p.green, p.blue)
  }

  /** The channels a pixel operation treats alike. */
  datatype Channel = RedChannel | GreenChannel | BlueChannel

  /** `getRed`, `getGreen` or `getBlue`. */
  function ChannelOf(p: Pixel, ch: Channel): (c: int)
    ensures InChannelRange(c)
  {
    match ch
    case RedChannel => p.red
    case GreenChannel => p.green
    case BlueChannel => p.blue
  }
}
