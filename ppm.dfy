/** PPM.cpp: the binary ("raw", P6) portable pixmap format as Image::write
    produces it and Image::read consumes it, stated as a pure encoder and a
    pure decoder over byte sequences.

    The file streams are modelled by the bytes they carry: `write` by the
    sequence it emits, `read` by a model of the std::istream operations it
    performs (`>>` into a std::string, `get()`) over the file's bytes. */
module Ppm {
  import opened Bytes

  datatype Option<T> = None | Some(value: T)

  /** PPM::Color: a 24-bit colour. */
  datatype Color = Color(r: Byte, g: Byte, b: Byte)

  /** Color(): black, the value std::vector::resize gives new pixels. */
  const Black: Color := Color(0, 0, 0)

  const Space: Byte := 32
  const Newline: Byte := 10
  const Zero: Byte := 48

  /** "P6\n": the magic number and the line break after it. */
  const Magic: seq<Byte> := [80, 54, Newline]

  /** "255\n": the maximum channel value and the single byte that ends the
      header. */
  const MaxValue: seq<Byte> := [50, 53, 53, Newline]

  /* ---------------------------------------------------------------------
     Encoding: Image::write (PPM.cpp:91-112)
     --------------------------------------------------------------------- */

  predicate IsDigit(c: Byte)
  {
    Zero <= c < Zero + 10
  }

  /** std::to_string of a non-negative number: its decimal digits, most
      significant first, without leading zeros. */
  function Decimal(n: nat): (s: seq<Byte>)
    ensures 1 <= |s|
    ensures forall i :: 0 <= i < |s| ==> IsDigit(s[i])
    ensures |s| > 1 ==> s[0] != Zero
  {
    if n < 10 then [Zero + n] else Decimal(n / 10) + [Zero + n % 10]
  }

  /** The header write emits: "P6\n", the width, a space, the height,
      std::endl, "255\n". It starts with the magic number, ends with the
      maximum value and is nine bytes longer than its two numbers. */
  function HeaderBytes(width: nat, height: nat): (r: seq<Byte>)
    ensures |r| == 9 + |Decimal(width)| + |Decimal(height)|
    ensures r[..3] == Magic && r[|r| - 4..] == MaxValue
  {
    Magic + Decimal(width) + [Space] + Decimal(height) + [Newline] + MaxValue
  }

  /** The pixel data write emits: r, g, b of every pixel in index order. */
  function PixelBytes(pixels: seq<Color>): (s: seq<Byte>)
    ensures |s| == 3 * |pixels|
  {
    if |pixels| == 0 then []
    else
      var last := pixels[|pixels| - 1];
      PixelBytes(pixels[..|pixels| - 1]) + [last.r, last.g, last.b]
  }

  /** Byte 3k + c of the pixel data is channel c of pixel k. */
  lemma {:induction false} PixelBytesAt(pixels: seq<Color>, k: nat)
    requires k < |pixels|
    ensures PixelBytes(pixels)[3 * k] == pixels[k].r
    ensures PixelBytes(pixels)[3 * k + 1] == pixels[k].g
    ensures PixelBytes(pixels)[3 * k + 2] == pixels[k].b
  {
    var n := |pixels| - 1;
    if k < n {
      PixelBytesAt(pixels[..n], k);
    }
  }

  /** A whole file as write emits it: the header, then three bytes per
      pixel. */
  function Encode(width: nat, height: nat, pixels: seq<Color>): (r: seq<Byte>)
    ensures |r| == |HeaderBytes(width, height)| + 3 * |pixels|
    ensures r[..|HeaderBytes(width, height)|] == HeaderBytes(width, height)
  {
    HeaderBytes(width, height) + PixelBytes(pixels)
  }

  /** The file is the header and exactly three bytes per pixel. */
  lemma EncodeLength(width: nat, height: nat, pixels: seq<Color>)
    requires |pixels| == width * height
    ensures |Encode(width, height, pixels)| == |HeaderBytes(width, height)| + 3 * (width * height)
  {
    assert |PixelBytes(pixels)| == 3 * |pixels|;
  }

  /* ---------------------------------------------------------------------
     std::stoi and the conversion to unsigned short (PPM.cpp:65, 69)
     --------------------------------------------------------------------- */

  /** The value of a run of decimal digits. */
  function DigitsValue(d: seq<Byte>): nat
    requires forall i :: 0 <= i < |d| ==> IsDigit(d[i])
  {
    if |d| == 0 then 0
    else
      assert IsDigit(d[|d| - 1]);
      DigitsValue(d[..|d| - 1]) * 10 + (d[|d| - 1] - Zero)
  }

  /** The number of leading decimal digits of s. */
  function DigitRun(s: seq<Byte>): (n: nat)
    ensures n <= |s|
    ensures forall i :: 0 <= i < n ==> IsDigit(s[i])
    ensures n < |s| ==> !IsDigit(s[n])
  {
    if |s| == 0 || !IsDigit(s[0]) then 0 else 1 + DigitRun(s[1..])
  }

  /** std::stoi on a token: an optional sign, then the longest run of
      digits; no digits (std::invalid_argument) or a value outside `int`
      (std::out_of_range) is a failure. Anything after the digits is
      ignored. */
  function Stoi(token: seq<Byte>): (r: Option<int>)
    ensures r.Some? ==> -0x8000_0000 <= r.value < 0x8000_0000
  {
    var signed := |token| > 0 && (token[0] == 45 || token[0] == 43);
    var negative := |token| > 0 && token[0] == 45;
    var body := if signed then token[1..] else token;
    var n := DigitRun(body);
    if n == 0 then None
    else
      var magnitude := DigitsValue(body[..n]);
      var v: int := if negative then -(magnitude as int) else magnitude;
      if v < -0x8000_0000 || 0x8000_0000 <= v then None else Some(v)
  }

  /** Converting an `int` to `unsigned short`: reduction modulo 2^16. */
  function ToU16(v: int): (r: nat)
    ensures r < 0x1_0000
    ensures 0 <= v < 0x1_0000 ==> r == v
  {
    v % 0x1_0000
  }

  /** Reading back the digits to_string writes gives the number. */
  lemma {:induction false} DecimalValue(n: nat)
    ensures DigitsValue(Decimal(n)) == n
  {
    if n >= 10 {
      DecimalValue(n / 10);
      var d := Decimal(n);
      assert d[..|d| - 1] == Decimal(n / 10);
    }
  }

  /** A run of digits is read whole. */
  lemma {:induction false} DigitRunAll(s: seq<Byte>)
    requires forall i :: 0 <= i < |s| ==> IsDigit(s[i])
    ensures DigitRun(s) == |s|
  {
    if |s| > 0 {
      DigitRunAll(s[1..]);
    }
  }

  /** std::stoi inverts std::to_string on every value an `unsigned short`
      can hold. */
  lemma StoiDecimal(n: nat)
    requires n < 0x1_0000
    ensures Stoi(Decimal(n)) == Some(n)
  {
    var d := Decimal(n);
    DigitRunAll(d);
    DecimalValue(n);
    assert d[..|d|] == d;
  }

  /* ---------------------------------------------------------------------
     The input stream of Image::read (PPM.cpp:53-87)
     --------------------------------------------------------------------- */

  /** isspace in the "C" locale: space, \t, \n, \v, \f, \r. */
  predicate IsSpace(c: Byte)
  {
    c == Space || 9 <= c <= 13
  }

  /** The state of the std::ifstream: the read position, the string the
      last `>>` stored, and the eof and fail bits. */
  datatype Stream = Stream(pos: nat, text: seq<Byte>, eof: bool, fail: bool)
  {
    /** `good()`: neither eof nor fail is set. */
    predicate Good()
    {
      !eof && !fail
    }
  }

  /** A freshly opened file and an empty std::string. */
  const Opened: Stream := Stream(0, [], false, false)

  /** The position of the first non-space byte at or after pos, or the end
      of the data. */
  function SkipSpace(data: seq<Byte>, pos: nat): (r: nat)
    requires pos <= |data|
    ensures pos <= r <= |data|
    ensures forall i :: pos <= i < r ==> IsSpace(data[i])
    ensures r < |data| ==> !IsSpace(data[r])
    decreases |data| - pos
  {
    if pos == |data| || !IsSpace(data[pos]) then pos else SkipSpace(data, pos + 1)
  }

  /** The position of the first space at or after pos, or the end of the
      data. */
  function TokenEnd(data: seq<Byte>, pos: nat): (r: nat)
    requires pos <= |data|
    ensures pos <= r <= |data|
    ensures forall i :: pos <= i < r ==> !IsSpace(data[i])
    ensures r < |data| ==> IsSpace(data[r])
    decreases |data| - pos
  {
    if pos == |data| || IsSpace(data[pos]) then pos else TokenEnd(data, pos + 1)
  }

  /** `file >> str`. A stream that is not good only sets fail. Otherwise
      leading spaces are skipped; at the end of the data eof and fail are
      set and str keeps its old value; else str receives the bytes up to
      the next space, and eof is set when the token runs to the end. */
  function Extract(data: seq<Byte>, s: Stream): (r: Stream)
    requires s.pos <= |data|
    ensures s.pos <= r.pos <= |data|
    ensures !s.Good() ==> r.fail
    ensures r.fail ==> r.text == s.text
    ensures !r.fail ==> 0 < |r.text| && forall i :: 0 <= i < |r.text| ==> !IsSpace(r.text[i])
  {
    if !s.Good() then s.(fail := true)
    else
      var start := SkipSpace(data, s.pos);
      if start == |data| then s.(pos := |data|, eof := true, fail := true)
      else
        var end := TokenEnd(data, start);
        Stream(end, data[start..end], end == |data|, false)
  }

  /** `file.get()`: the next byte, or EOF (-1) with fail set when the
      stream is not good or the data is exhausted. */
  function Get(data: seq<Byte>, s: Stream): (r: (int, Stream))
    requires s.pos <= |data|
    ensures r.1.pos <= |data|
    ensures s.Good() && s.pos < |data| ==> r.0 == data[s.pos] && r.1 == s.(pos := s.pos + 1)
    ensures !(s.Good() && s.pos < |data|) ==> r.0 == -1 && r.1.fail
  {
    if !s.Good() then (-1, s.(fail := true))
    else if s.pos == |data| then (-1, s.(eof := true, fail := true))
    else (data[s.pos] as int, s.(pos := s.pos + 1))
  }

  /** The stream after n calls of get(). */
  function GetN(data: seq<Byte>, s: Stream, n: nat): (r: Stream)
    requires s.pos <= |data|
    ensures r.pos <= |data|
  {
    if n == 0 then s else Get(data, GetN(data, s, n - 1)).1
  }

  /** `unsigned char` of the int get() returns: EOF becomes 255. */
  function Narrow(v: int): (c: Byte)
    ensures 0 <= v < 256 ==> c == v
    ensures v == -1 ==> c == 255
  {
    v % 256
  }

  /** Calls of get() on a good stream return the data byte by byte; once
      the data is exhausted the stream fails and stays failed. */
  lemma {:induction false} GetNGood(data: seq<Byte>, s: Stream, n: nat)
    requires s.Good() && s.pos <= |data|
    ensures s.pos + n <= |data| ==> GetN(data, s, n) == s.(pos := s.pos + n)
    ensures s.pos + n > |data| ==> GetN(data, s, n).fail
  {
    if n > 0 {
      GetNGood(data, s, n - 1);
    }
  }

  /** GetN on a stream that is not good stays not good. */
  lemma {:induction false} GetNFailed(data: seq<Byte>, s: Stream, n: nat)
    requires !s.Good() && s.pos <= |data|
    ensures !GetN(data, s, n).Good()
    ensures n > 0 ==> GetN(data, s, n).fail
  {
    if n > 0 {
      GetNFailed(data, s, n - 1);
    }
  }

  /** Byte n of the pixel data as the n-th get() after the header sees it:
      the data byte while there is one and the stream is good, else 255. */
  function PixelByte(data: seq<Byte>, s: Stream, n: nat): Byte
  {
    if s.Good() && s.pos + n < |data| then data[s.pos + n] else 255
  }

  /** The n-th get() after s returns PixelByte(data, s, n) (as an
      `unsigned char`), and the stream is still good after n calls exactly
      when s was good and at least n bytes remained. */
  lemma GetNValue(data: seq<Byte>, s: Stream, n: nat)
    requires s.pos <= |data|
    ensures Narrow(Get(data, GetN(data, s, n)).0) == PixelByte(data, s, n)
    ensures !GetN(data, s, n).fail <==> (n == 0 && !s.fail) || (s.Good() && s.pos + n <= |data|)
  {
    if s.Good() {
      GetNGood(data, s, n);
      GetNGood(data, s, n + 1);
    } else {
      GetNFailed(data, s, n);
    }
  }

  /* ---------------------------------------------------------------------
     Decoding: Image::read (PPM.cpp:53-87)
     --------------------------------------------------------------------- */

  /** The evaluation order of the three file.get() calls in
      `Color(file.get(), file.get(), file.get())`, which C++ leaves
      unspecified: left to right (the first byte is red) or right to left
      (the first byte is blue). */
  datatype ChannelOrder = LeftToRight | RightToLeft

  /** The colour built from three bytes in the order they were read. */
  function ColorOf(order: ChannelOrder, first: Byte, second: Byte, third: Byte): Color
  {
    match order
    case LeftToRight => Color(first, second, third)
    case RightToLeft => Color(third, second, first)
  }

  /** The header read extracts: the dimensions (already narrowed to
      `unsigned short`) and the stream positioned at the first pixel byte. */
  datatype Header = Header(width: nat, height: nat, stream: Stream)

  /** The four `>>` extractions, the two std::stoi calls and the get()
      that skips the byte after the maximum value. None stands for the
      exception std::stoi throws; nothing else fails here. */
  function ParseHeader(data: seq<Byte>): (r: Option<Header>)
    ensures r.Some? ==> r.value.width < 0x1_0000 && r.value.height < 0x1_0000
    ensures r.Some? ==> r.value.stream.pos <= |data|
    ensures r.Some? ==> r.value.stream.Good() || r.value.stream.fail
  {
    var magic := Extract(data, Opened);
    var columns := Extract(data, magic);
    match Stoi(columns.text)
    case None => None
    case Some(w) =>
      var rows := Extract(data, columns);
      match Stoi(rows.text)
      case None => None
      case Some(h) =>
        var maxValue := Extract(data, rows);
        Some(Header(ToU16(w), ToU16(h), Get(data, maxValue).1))
  }

  /** What read leaves in the image, and its result. */
  datatype Decoded = Decoded(width: nat, height: nat, pixels: seq<Color>, complete: bool)

  /** Pixel k as read fills it: the colour of get() calls 3k, 3k + 1 and
      3k + 2 after the header. */
  function PixelAt(order: ChannelOrder, data: seq<Byte>, s: Stream, k: nat): Color
  {
    ColorOf(order, PixelByte(data, s, 3 * k), PixelByte(data, s, 3 * k + 1), PixelByte(data, s, 3 * k + 2))
  }

  /** The pixels read fills after the header, and read's result: true
      exactly when the header was read whole and 3 * width * height bytes
      followed it. */
  function Body(order: ChannelOrder, data: seq<Byte>, header: Header): (d: Decoded)
    ensures d.width == header.width && d.height == header.height
    ensures |d.pixels| == header.width * header.height
  {
    var w, h, s := header.width, header.height, header.stream;
    Decoded(w, h, seq(w * h, k requires 0 <= k => PixelAt(order, data, s, k)),
            !s.fail && s.pos + 3 * (w * h) <= |data|)
  }

  /** Image::read on the bytes of a file: None when std::stoi throws (the
      image is untouched), otherwise the header's dimensions and Body. */
  function Decode(order: ChannelOrder, data: seq<Byte>): (r: Option<Decoded>)
    ensures r.Some? ==> |r.value.pixels| == r.value.width * r.value.height
    ensures r.Some? ==> r.value.width < 0x1_0000 && r.value.height < 0x1_0000
  {
    match ParseHeader(data)
    case None => None
    case Some(header) => Some(Body(order, data, header))
  }

  /** The pixels as a reader with the given channel order sees the bytes
      write emits for them. */
  function Reordered(order: ChannelOrder, pixels: seq<Color>): (r: seq<Color>)
    ensures |r| == |pixels|
  {
    match order
    case LeftToRight => pixels
    case RightToLeft => seq(|pixels|, i requires 0 <= i < |pixels| => Color(pixels[i].b, pixels[i].g, pixels[i].r))
  }

  /** Swapping red and blue twice gives the pixels back. */
  lemma ReorderedTwice(order: ChannelOrder, pixels: seq<Color>)
    ensures Reordered(order, Reordered(order, pixels)) == pixels
  {
  }

  /* ---------------------------------------------------------------------
     Round trip: read of what write emits
     --------------------------------------------------------------------- */

  /** SkipSpace stops at the first non-space byte. */
  lemma SkipSpaceTo(data: seq<Byte>, pos: nat, target: nat)
    requires pos <= target < |data|
    requires forall i :: pos <= i < target ==> IsSpace(data[i])
    requires !IsSpace(data[target])
    ensures SkipSpace(data, pos) == target
  {
  }

  /** TokenEnd stops at the first space. */
  lemma TokenEndTo(data: seq<Byte>, pos: nat, target: nat)
    requires pos <= target < |data|
    requires forall i :: pos <= i < target ==> !IsSpace(data[i])
    requires IsSpace(data[target])
    ensures TokenEnd(data, pos) == target
  {
  }

  /** `>>` on a good stream reads the token that follows some spaces and is
      followed by a space. */
  lemma ExtractToken(data: seq<Byte>, s: Stream, start: nat, token: seq<Byte>)
    requires s.Good() && s.pos <= start
    requires 0 < |token| && start + |token| < |data|
    requires data[start..start + |token|] == token
    requires forall i :: s.pos <= i < start ==> IsSpace(data[i])
    requires forall i :: 0 <= i < |token| ==> !IsSpace(token[i])
    requires IsSpace(data[start + |token|])
    ensures Extract(data, s) == Stream(start + |token|, token, false, false)
  {
    assert data[start] == token[0];
    SkipSpaceTo(data, s.pos, start);
    forall i | start <= i < start + |token|
      ensures !IsSpace(data[i])
    {
      assert data[i] == token[i - start];
    }
    TokenEndTo(data, start, start + |token|);
  }

  /** The byte layout write gives a header, with any two digit runs d1 and
      d2 as the dimensions: "P6\n", d1, a space, d2, "\n255\n". */
  predicate Layout(data: seq<Byte>, d1: seq<Byte>, d2: seq<Byte>)
  {
    && 0 < |d1| && (forall i :: 0 <= i < |d1| ==> IsDigit(d1[i]))
    && 0 < |d2| && (forall i :: 0 <= i < |d2| ==> IsDigit(d2[i]))
    && 9 + |d1| + |d2| <= |data|
    && data[..3] == Magic
    && data[3..3 + |d1|] == d1
    && data[3 + |d1|] == Space
    && data[4 + |d1|..4 + |d1| + |d2|] == d2
    && data[4 + |d1| + |d2|..9 + |d1| + |d2|] == [Newline] + MaxValue
  }

  /** The first token of such a header is the magic number "P6". */
  lemma MagicToken(data: seq<Byte>, d1: seq<Byte>, d2: seq<Byte>)
    requires Layout(data, d1, d2)
    ensures Extract(data, Opened) == Stream(2, Magic[..2], false, false)
  {
    assert data[0..2] == Magic[..2];
    assert data[2] == Magic[2];
    ExtractToken(data, Opened, 0, Magic[..2]);
  }

  /** The second token is the width's digits. */
  lemma ColumnsToken(data: seq<Byte>, d1: seq<Byte>, d2: seq<Byte>)
    requires Layout(data, d1, d2)
    ensures Extract(data, Stream(2, Magic[..2], false, false)) == Stream(3 + |d1|, d1, false, false)
  {
    assert data[2] == Magic[2];
    ExtractToken(data, Stream(2, Magic[..2], false, false), 3, d1);
  }

  /** The third token is the height's digits. */
  lemma RowsToken(data: seq<Byte>, d1: seq<Byte>, d2: seq<Byte>)
    requires Layout(data, d1, d2)
    ensures Extract(data, Stream(3 + |d1|, d1, false, false)) == Stream(4 + |d1| + |d2|, d2, false, false)
  {
    var n := 4 + |d1| + |d2|;
    assert data[n] == ([Newline] + MaxValue)[0];
    ExtractToken(data, Stream(3 + |d1|, d1, false, false), 4 + |d1|, d2);
  }

  /** The fourth token is the maximum value "255", and a newline follows. */
  lemma MaxValueToken(data: seq<Byte>, d1: seq<Byte>, d2: seq<Byte>)
    requires Layout(data, d1, d2)
    ensures Extract(data, Stream(4 + |d1| + |d2|, d2, false, false)) == Stream(8 + |d1| + |d2|, MaxValue[..3], false, false)
  {
    var n := 4 + |d1| + |d2|;
    var tail := [Newline] + MaxValue;
    assert data[n] == tail[0];
    assert data[n..n + 5] == tail;
    assert data[n + 1..n + 4] == data[n..n + 5][1..4];
    assert tail[1..4] == MaxValue[..3];
    assert data[n + 4] == tail[4];
    assert forall i :: 0 <= i < 3 ==> !IsSpace(MaxValue[..3][i]);
    ExtractToken(data, Stream(n, d2, false, false), n + 1, MaxValue[..3]);
  }

  /** ParseHeader on a stream whose four tokens are "P6", two numbers that
      fit an `unsigned short` and "255", followed by one more byte. */
  lemma ParseTokens(data: seq<Byte>, d1: seq<Byte>, d2: seq<Byte>, width: nat, height: nat, end: nat)
    requires Stoi(d1) == Some(width) && Stoi(d2) == Some(height)
    requires width < 0x1_0000 && height < 0x1_0000
    requires Extract(data, Opened) == Stream(2, Magic[..2], false, false)
    requires Extract(data, Stream(2, Magic[..2], false, false)) == Stream(3 + |d1|, d1, false, false)
    requires Extract(data, Stream(3 + |d1|, d1, false, false)) == Stream(4 + |d1| + |d2|, d2, false, false)
    requires Extract(data, Stream(4 + |d1| + |d2|, d2, false, false)) == Stream(8 + |d1| + |d2|, MaxValue[..3], false, false)
    requires 8 + |d1| + |d2| < |data| && end == 9 + |d1| + |d2|
    ensures ParseHeader(data) == Some(Header(width, height, Stream(end, MaxValue[..3], false, false)))
  {
    var maxValue := Stream(8 + |d1| + |d2|, MaxValue[..3], false, false);
    assert Get(data, maxValue).1 == maxValue.(pos := end);
  }

  /** Reading a header with that layout: the four tokens are read in turn,
      the digit runs give the dimensions, and get() consumes the newline
      after "255". */
  lemma ParseLayout(data: seq<Byte>, d1: seq<Byte>, d2: seq<Byte>, width: nat, height: nat, end: nat)
    requires Layout(data, d1, d2) && end == 9 + |d1| + |d2|
    requires Stoi(d1) == Some(width) && Stoi(d2) == Some(height)
    requires width < 0x1_0000 && height < 0x1_0000
    ensures ParseHeader(data) == Some(Header(width, height, Stream(end, MaxValue[..3], false, false)))
  {
    MagicToken(data, d1, d2);
    ColumnsToken(data, d1, d2);
    RowsToken(data, d1, d2);
    MaxValueToken(data, d1, d2);
    ParseTokens(data, d1, d2, width, height, end);
  }

  /** The slices of a concatenation that lie within one of its parts. */
  lemma SliceOfAppend(a: seq<Byte>, b: seq<Byte>, i: nat, j: nat)
    requires i <= j <= |a| + |b|
    ensures j <= |a| ==> (a + b)[i..j] == a[i..j]
    ensures |a| <= i ==> (a + b)[i..j] == b[i - |a|..j - |a|]
  {
  }

  /** A header written with any two digit runs has that layout, whatever
      follows it. */
  lemma HeaderLayout(d1: seq<Byte>, d2: seq<Byte>, rest: seq<Byte>)
    requires 0 < |d1| && forall i :: 0 <= i < |d1| ==> IsDigit(d1[i])
    requires 0 < |d2| && forall i :: 0 <= i < |d2| ==> IsDigit(d2[i])
    ensures Layout(Magic + d1 + [Space] + d2 + [Newline] + MaxValue + rest, d1, d2)
  {
    HeaderFront(d1, d2, rest);
    HeaderBack(d1, d2, rest);
  }

  /** The magic number, the width and the space after it. */
  lemma HeaderFront(d1: seq<Byte>, d2: seq<Byte>, rest: seq<Byte>)
    ensures var data := Magic + d1 + [Space] + d2 + [Newline] + MaxValue + rest;
      && 9 + |d1| + |d2| <= |data|
      && data[..3] == Magic
      && data[3..3 + |d1|] == d1
      && data[3 + |d1|] == Space
  {
    var a := |d1|;
    var withWidth := Magic + d1;
    var withSpace := withWidth + [Space];
    var withHeight := withSpace + d2;
    var withNewline := withHeight + [Newline];
    var header := withNewline + MaxValue;
    SliceOfAppend(header, rest, 0, 3);
    SliceOfAppend(withNewline, MaxValue, 0, 3);
    SliceOfAppend(withHeight, [Newline], 0, 3);
    SliceOfAppend(withSpace, d2, 0, 3);
    SliceOfAppend(withWidth, [Space], 0, 3);
    SliceOfAppend(Magic, d1, 0, 3);
    assert (header + rest)[..3] == (header + rest)[0..3];
    SliceOfAppend(header, rest, 3, 3 + a);
    SliceOfAppend(withNewline, MaxValue, 3, 3 + a);
    SliceOfAppend(withHeight, [Newline], 3, 3 + a);
    SliceOfAppend(withSpace, d2, 3, 3 + a);
    SliceOfAppend(withWidth, [Space], 3, 3 + a);
    SliceOfAppend(Magic, d1, 3, 3 + a);
    assert d1[0..a] == d1;
  }

  /** The height, the newline after it and "255\n". */
  lemma HeaderBack(d1: seq<Byte>, d2: seq<Byte>, rest: seq<Byte>)
    ensures var data := Magic + d1 + [Space] + d2 + [Newline] + MaxValue + rest;
      && data[4 + |d1|..4 + |d1| + |d2|] == d2
      && data[4 + |d1| + |d2|..9 + |d1| + |d2|] == [Newline] + MaxValue
  {
    var a, b := |d1|, |d2|;
    var withSpace := Magic + d1 + [Space];
    var withHeight := withSpace + d2;
    var withNewline := withHeight + [Newline];
    var header := withNewline + MaxValue;
    SliceOfAppend(header, rest, 4 + a, 4 + a + b);
    SliceOfAppend(withNewline, MaxValue, 4 + a, 4 + a + b);
    SliceOfAppend(withHeight, [Newline], 4 + a, 4 + a + b);
    SliceOfAppend(withSpace, d2, 4 + a, 4 + a + b);
    assert d2[0..b] == d2;
    SliceOfAppend(header, rest, 4 + a + b, 9 + a + b);
    assert header[4 + a + b..9 + a + b] == [Newline] + MaxValue;
  }

  /** Reading the header write emits, followed by anything, recovers the
      width and the height and leaves the stream good, at the first byte
      after the header. */
  lemma ParseEncodedHeader(width: nat, height: nat, rest: seq<Byte>)
    requires width < 0x1_0000 && height < 0x1_0000
    ensures ParseHeader(HeaderBytes(width, height) + rest)
         == Some(Header(width, height, Stream(|HeaderBytes(width, height)|, MaxValue[..3], false, false)))
  {
    StoiDecimal(width);
    StoiDecimal(height);
    HeaderLayout(Decimal(width), Decimal(height), rest);
    ParseLayout(HeaderBytes(width, height) + rest, Decimal(width), Decimal(height), width, height, |HeaderBytes(width, height)|);
  }

  /** Pixel k as read from what write emitted is pixel k written. */
  lemma PixelOfEncoded(order: ChannelOrder, header: seq<Byte>, pixels: seq<Color>, s: Stream, k: nat)
    requires s.Good() && s.pos == |header| && k < |pixels|
    ensures PixelAt(order, header + PixelBytes(pixels), s, k) == Reordered(order, pixels)[k]
  {
    var body := PixelBytes(pixels);
    var data := header + body;
    PixelBytesAt(pixels, k);
    assert data[|header| + 3 * k] == body[3 * k];
    assert data[|header| + 3 * k + 1] == body[3 * k + 1];
    assert data[|header| + 3 * k + 2] == body[3 * k + 2];
  }

  /** The pixels read after the header write emitted are the pixels written
      (with red and blue exchanged when the channels are read right to
      left), and all of them were there. */
  lemma BodyOfEncoded(order: ChannelOrder, width: nat, height: nat, pixels: seq<Color>, s: Stream)
    requires |pixels| == width * height
    requires s == Stream(|HeaderBytes(width, height)|, MaxValue[..3], false, false)
    ensures Body(order, Encode(width, height, pixels), Header(width, height, s))
         == Decoded(width, height, Reordered(order, pixels), true)
  {
    var header := HeaderBytes(width, height);
    var d := Body(order, header + PixelBytes(pixels), Header(width, height, s));
    forall k | 0 <= k < |pixels|
      ensures d.pixels[k] == Reordered(order, pixels)[k]
    {
      PixelOfEncoded(order, header, pixels, s, k);
    }
    assert d.pixels == Reordered(order, pixels);
  }

  /** Round trip: reading what write emits gives back the dimensions and
      the pixels, and read reports success. */
  lemma DecodeEncoded(order: ChannelOrder, width: nat, height: nat, pixels: seq<Color>)
    requires width < 0x1_0000 && height < 0x1_0000
    requires |pixels| == width * height
    ensures Decode(order, Encode(width, height, pixels)) == Some(Decoded(width, height, Reordered(order, pixels), true))
  {
    var s := Stream(|HeaderBytes(width, height)|, MaxValue[..3], false, false);
    ParseEncodedHeader(width, height, PixelBytes(pixels));
    BodyOfEncoded(order, width, height, pixels, s);
  }

  /** Reading a file write emitted but cut short anywhere in the pixel data
      still gives the dimensions, and read reports failure. */
  lemma DecodeTruncated(order: ChannelOrder, width: nat, height: nat, pixels: seq<Color>, n: nat)
    requires width < 0x1_0000 && height < 0x1_0000
    requires |pixels| == width * height
    requires |HeaderBytes(width, height)| <= n < |Encode(width, height, pixels)|
    ensures Decode(order, Encode(width, height, pixels)[..n]).Some?
    ensures Decode(order, Encode(width, height, pixels)[..n]).value.width == width
    ensures Decode(order, Encode(width, height, pixels)[..n]).value.height == height
    ensures !Decode(order, Encode(width, height, pixels)[..n]).value.complete
  {
    var header, body := HeaderBytes(width, height), PixelBytes(pixels);
    var cut := body[..n - |header|];
    assert Encode(width, height, pixels)[..n] == header + cut;
    ParseEncodedHeader(width, height, cut);
    EncodeLength(width, height, pixels);
  }
}
