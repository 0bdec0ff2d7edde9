/** The part of tile decoding the observer does itself: choosing the byte
    size of a pixel and allocating the buffer the RLE codec fills. */
module TileDecode {
  import opened Raster

  /** Bytes per pixel handed to the codec for a given colour depth. */
  function TileByteSize(bitsPerPixel: int): (size: nat)
    ensures bitsPerPixel < 24 <==> size == 2
    ensures 24 <= bitsPerPixel < 32 <==> size == 3
    ensures 32 <= bitsPerPixel <==> size == 4
  {
    if bitsPerPixel < 24 then 2
    else if bitsPerPixel < 32 then 3
    else 4
  }

  /** The zeroed buffer `bytearray(width * height * sz)` that the codec
      decompresses into. */
  function DecompressBuffer(width: nat, height: nat, bitsPerPixel: int): (buf: seq<byte>)
    ensures |buf| == width * height * TileByteSize(bitsPerPixel)
    ensures 2 * (width * height) <= |buf| <= 4 * (width * height)
    ensures forall i :: 0 <= i < |buf| ==> buf[i] == 0
  {
    seq(width * height * TileByteSize(bitsPerPixel), _ => 0)
  }
}
