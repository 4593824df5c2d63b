/** PPM::Image (PPM.hpp:37-74, PPM.cpp:13-117): an in-memory image, a
    row-major grid of colours that reads itself from and writes itself to
    the bytes of a P6 file. */
module PpmImage {
  import opened Bytes
  import opened Ppm
  import Grid

  /** The pixels a read has filled so far: the first n, each the colour of
      its three bytes after the header stream s. */
  ghost predicate Filled(pixels: seq<Color>, order: ChannelOrder, data: seq<Byte>, s: Stream, n: nat)
  {
    forall k :: 0 <= k < n && k < |pixels| ==> pixels[k] == PixelAt(order, data, s, k)
  }

  /** The result of read: the stream has not failed after the pixels
      exactly when Body reports them complete. */
  lemma ReadComplete(order: ChannelOrder, data: seq<Byte>, header: Header)
    requires header.stream.pos <= |data|
    requires header.stream.Good() || header.stream.fail
    ensures !GetN(data, header.stream, 3 * (header.width * header.height)).fail
        <==> Body(order, data, header).complete
  {
    GetNValue(data, header.stream, 3 * (header.width * header.height));
  }

  /** Three get() calls from the stream after 3k calls read pixel k. */
  lemma ReadColor(order: ChannelOrder, data: seq<Byte>, start: Stream, k: nat)
    requires start.pos <= |data|
    ensures
      var first := Ppm.Get(data, GetN(data, start, 3 * k));
      var second := Ppm.Get(data, first.1);
      var third := Ppm.Get(data, second.1);
      && third.1 == GetN(data, start, 3 * (k + 1))
      && ColorOf(order, Narrow(first.0), Narrow(second.0), Narrow(third.0)) == PixelAt(order, data, start, k)
  {
    GetNValue(data, start, 3 * k);
    GetNValue(data, start, 3 * k + 1);
    GetNValue(data, start, 3 * k + 2);
  }

  /** Setting pixel (x, y), the next one in row-major order, to its colour
      extends the filled prefix by one. */
  lemma FilledStep(pixels: seq<Color>, order: ChannelOrder, data: seq<Byte>, start: Stream,
                   w: nat, h: nat, x: nat, y: nat, k: nat, color: Color)
    requires |pixels| == w * h && x < w && y < h && k == y * w + x
    requires Filled(pixels, order, data, start, k)
    requires color == PixelAt(order, data, start, k)
    ensures Filled(Grid.Put(pixels, w, h, x, y, color), order, data, start, k + 1)
  {
    Grid.PutChangesOneCell(pixels, w, h, x, y, color);
  }

  /** A read that has filled every pixel has read them all. */
  lemma FilledAll(pixels: seq<Color>, order: ChannelOrder, data: seq<Byte>, start: Stream)
    requires Filled(pixels, order, data, start, |pixels|)
    ensures pixels == seq(|pixels|, k requires 0 <= k => PixelAt(order, data, start, k))
  {
  }

  class Image {
    var pixels: seq<Color>
    var width: Grid.U16
    var height: Grid.U16

    ghost predicate Valid()
      reads this
    {
      |pixels| == width * height
    }

    /** Image(): an empty 0 x 0 image. */
    constructor ()
      ensures Valid() && width == 0 && height == 0 && pixels == []
    {
      pixels, width, height := [], 0, 0;
    }

    /** Image(width, height): a black image of that size (resize of an
        empty pixel vector). */
    constructor Sized(w: Grid.U16, h: Grid.U16)
      ensures Valid() && width == w && height == h
      ensures pixels == seq(w * h, _ => Black)
    {
      pixels, width, height := [], 0, 0;
      new;
      Resize(w, h);
      assert Grid.Resized([], w * h, Black) == seq(w * h, _ => Black);
    }

    /** Image(filename): an image read from the bytes of a file. When
        std::stoi throws the source constructs no object at all; here the
        image stays empty. */
    constructor Load(order: ChannelOrder, data: seq<Byte>)
      ensures Valid()
      ensures Decode(order, data).None? ==> width == 0 && height == 0 && pixels == []
      ensures Decode(order, data).Some? ==>
        && width == Decode(order, data).value.width
        && height == Decode(order, data).value.height
        && pixels == Decode(order, data).value.pixels
    {
      pixels, width, height := [], 0, 0;
      new;
      var _ := Read(order, data);
    }

    /** Image::get: black outside the image, the stored pixel inside. */
    function Get(x: Grid.U16, y: Grid.U16): (c: Color)
      reads this
      requires Valid()
      ensures x >= width || y >= height ==> c == Black
      ensures x < width && y < height ==>
        Grid.Index(width, x, y) < |pixels| && c == pixels[Grid.Index(width, x, y)]
    {
      Grid.At(pixels, width, height, x, y, Black)
    }

    /** Image::set: pixels outside the image are ignored. */
    method Set(x: Grid.U16, y: Grid.U16, color: Color)
      requires Valid()
      modifies this
      ensures Valid() && width == old(width) && height == old(height)
      ensures pixels == Grid.Put(old(pixels), width, height, x, y, color)
    {
      if x >= width || y >= height {
        return;
      }
      Grid.IndexInBounds(width, height, x, y);
      pixels := pixels[Grid.Index(width, x, y) := color];
    }

    /** Image::resize: new dimensions, and std::vector::resize of the
        pixels (old prefix kept, new pixels black). */
    method Resize(w: Grid.U16, h: Grid.U16)
      modifies this
      ensures Valid() && width == w && height == h
      ensures pixels == Grid.Resized(old(pixels), w * h, Black)
    {
      width := w;
      height := h;
      pixels := Grid.Resized(pixels, w * h, Black);
    }

    /** Image::read on the bytes of a file. When std::stoi throws, nothing
        changes and the result is false; otherwise the image takes the
        dimensions and pixels Decode gives, and the result says whether
        every pixel byte was there. */
    method Read(order: ChannelOrder, data: seq<Byte>) returns (ok: bool)
      requires Valid()
      modifies this
      ensures Valid()
      ensures Decode(order, data).None? ==>
        !ok && pixels == old(pixels) && width == old(width) && height == old(height)
      ensures Decode(order, data).Some? ==>
        && width == Decode(order, data).value.width
        && height == Decode(order, data).value.height
        && pixels == Decode(order, data).value.pixels
        && ok == Decode(order, data).value.complete
    {
      var s := Extract(data, Opened);
      s := Extract(data, s);
      var columns := Stoi(s.text);
      if columns.None? {
        return false;
      }
      s := Extract(data, s);
      var rows := Stoi(s.text);
      if rows.None? {
        return false;
      }
      s := Extract(data, s);
      s := Ppm.Get(data, s).1;
      ghost var header := Header(ToU16(columns.value), ToU16(rows.value), s);
      assert ParseHeader(data) == Some(header);
      Resize(ToU16(columns.value), ToU16(rows.value));

      ghost var start := s;
      s := ReadPixels(order, data, s);
      ok := !s.fail;
      ReadComplete(order, data, header);
    }

    /** The loops of Image::read: every pixel, rows in order and pixels
        left to right within a row, from three get() calls each. */
    method ReadPixels(order: ChannelOrder, data: seq<Byte>, start: Stream) returns (s: Stream)
      requires Valid() && start.pos <= |data|
      modifies this
      ensures Valid() && width == old(width) && height == old(height)
      ensures pixels == seq(width * height, k requires 0 <= k => PixelAt(order, data, start, k))
      ensures s == GetN(data, start, 3 * (width * height))
    {
      ghost var w: nat, h: nat := width, height;
      ghost var n: nat := 0;
      s := start;
      var y := 0;
      while y < height
        invariant Valid() && width == w && height == h && y <= h && n == y * w
        invariant s.pos <= |data| && s == GetN(data, start, 3 * n)
        invariant Filled(pixels, order, data, start, n)
      {
        var x := 0;
        while x < width
          invariant Valid() && width == w && height == h && x <= w && n == y * w + x
          invariant s.pos <= |data| && s == GetN(data, start, 3 * n)
          invariant Filled(pixels, order, data, start, n)
        {
          ReadColor(order, data, start, n);
          var first := Ppm.Get(data, s);
          var second := Ppm.Get(data, first.1);
          var third := Ppm.Get(data, second.1);
          s := third.1;
          var color := ColorOf(order, Narrow(first.0), Narrow(second.0), Narrow(third.0));
          FilledStep(pixels, order, data, start, w, h, x, y, n, color);
          Set(x, y, color);
          x := x + 1;
          n := n + 1;
        }
        assert n == (y + 1) * w;
        y := y + 1;
      }
      assert n == w * h;
      FilledAll(pixels, order, data, start);
    }

    /** Image::write: the bytes of the file, built pixel by pixel. */
    method Write() returns (bytes: seq<Byte>)
      requires Valid()
      ensures bytes == Encode(width, height, pixels)
    {
      bytes := HeaderBytes(width, height);
      var i := 0;
      while i < width * height
        invariant i <= width * height
        invariant bytes == HeaderBytes(width, height) + PixelBytes(pixels[..i])
      {
        assert pixels[..i + 1][..i] == pixels[..i];
        bytes := bytes + [pixels[i].r, pixels[i].g, pixels[i].b];
        i := i + 1;
      }
      assert pixels[..i] == pixels;
    }

    /** Image::filesize: three bytes per pixel, exactly the bytes write
        emits after the header. */
    function Filesize(): (n: nat)
      reads this
      requires Valid()
      ensures n == |Encode(width, height, pixels)| - |HeaderBytes(width, height)|
    {
      EncodeLength(width, height, pixels);
      width * height * 3
    }
  }
}
