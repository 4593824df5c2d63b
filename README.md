# Perlin noise maps and PPM images, in Dafny

This project models the two core files of a small C++ library.

- `Perlin.cpp` has two parts.
  - `Perlin::Generator` is Ken Perlin's improved gradient noise. It holds a 512-entry permutation table, built either from the reference permutation or by shuffling 0..255 with a seeded engine. Its kernel uses `fade`, `lerp` and `grad`.
  - `Perlin::Noise` is a width × height map of doubles. `generate` fills it with clamped sums of noise octaves.
- `PPM.cpp` has `PPM::Image`, a width × height grid of 24-bit colours. It writes itself to the binary P6 pixmap format and reads itself back.

The modules are:

- `Grid` holds the row-major storage both classes share. A cell (x, y) sits at index y·width + x. `get` answers a default value outside the grid, `set` ignores coordinates outside the grid, and `resize` is `std::vector::resize` on the flat vector.
- `PerlinTable` holds the permutation tables and the Fisher–Yates shuffle.
- `Perlin` holds the noise kernel, the class `Generator` and the class `Noise`.
- `Ppm` holds the file format, stated as a pure encoder (`Encode`) and a pure decoder (`Decode`). The decoder models the `std::ifstream` operations `read` performs: `>>` into a `std::string`, `get()`, and the eof and fail bits.
- `PpmImage` holds the class `Image`. Its `Read` and `Write` methods are proved against `Decode` and `Encode`.

Both classes' methods are proved to leave exactly the state the specification functions describe. The main properties proved are these:

- Both table constructors produce a valid table: a permutation of 0..255 followed by a copy of itself.
- The noise is bounded, and it is 0 at lattice points. Every value a noise map holds is in [-1, 1].
- `generate` writes exactly the cells it reaches, each with its clamped octave sum.
- `read` recovers what `write` wrote: width, height and every pixel, up to the channel order, with the result `true`.
- A truncated file reads with the correct dimensions and the result `false`.

Where the code and its documentation disagree, the model follows the code:

- `generate` runs its row counter below the width and its column counter below the height (`Perlin.cpp:192-193`). Only the square of side min(width, height) is written. `Perlin.WideMapMissesCell` names a cell that stays unwritten.
- With zero octaves, `generate` returns after the resize. The old cells that survive the resize keep their values; they are not reset to 0.
- The comments on both resize functions say the data is not preserved. In fact `std::vector::resize` keeps the flat prefix. `Grid.ResizedSameWidth` shows that a cell keeps its value whenever the width is unchanged.
- `Generator::get` is documented to return values in [-1, 1]. The bound proved here is [-2, 2].

## Model

| member | source | states |
|---|---|---|
| Grid.IndexInBounds | PPM.cpp:31 | a cell inside a w × h grid has row-major index below w·h, so the indexing never leaves the vector; for 16-bit dimensions the index is below 2³², so the `unsigned int` arithmetic never wraps |
| Grid.IndexInjective | Perlin.cpp:153 | distinct cells of a grid have distinct row-major indices |
| Grid.At | PPM.cpp:27-32 | the guarded getter: the default value outside the grid, the cell at y·w + x inside |
| Grid.PutChangesOneCell | PPM.cpp:35-40 | the guarded setter: a write outside the grid changes nothing; a write inside changes index y·w + x to the new value and no other position |
| Grid.Put | Perlin.cpp:157-162 | the guarded setter keeps the length; outside the grid nothing changes, inside the cell at y·w + x holds the new value |
| Grid.AtPut | Perlin.cpp:157-162 | reading after a write: the written cell (if inside) holds the new value, every other cell reads as before |
| Grid.Resized | Perlin.cpp:170 | `std::vector::resize(n)`: length n, the old prefix kept, new cells value-initialised |
| Grid.ResizedSameWidth | PPM.cpp:43-49 | resizing with the width unchanged keeps every cell in the rows both sizes share |
| PerlinTable.IotaArray | Perlin.cpp:40-43 | `std::iota` into a fresh 256-entry vector: its contents are 0..255 in order |
| PerlinTable.Iota | Perlin.cpp:43 | `std::iota` over 256 entries: entry i is i |
| PerlinTable.IotaCount | Perlin.cpp:43 | 0..n-1 contains each value below n once and nothing else |
| PerlinTable.DistinctCount | Perlin.cpp:8-28 | a sequence without repeated entries holds each value at most once |
| PerlinTable.DistinctBytesArePermutation | Perlin.cpp:8-28 | 256 distinct bytes form a permutation of 0..255 |
| PerlinTable.Swap | Perlin.cpp:47 | one exchange of the shuffle: the two entries traded, every other entry unchanged, the multiset of entries kept |
| PerlinTable.Draw | Perlin.cpp:46-47 | step i of the shuffle picks a partner at or before position i |
| PerlinTable.ShufflePermutes | Perlin.cpp:46-47 | the shuffle keeps the length and the multiset of entries, whatever the engine draws |
| PerlinTable.Shuffle | Perlin.cpp:46-47 | `std::shuffle` in place on the array: the array becomes the Fisher–Yates result from its old contents |
| PerlinTable.ShuffledIota | Perlin.cpp:40-47 | iota then the in-place shuffle: the result is the Fisher–Yates shuffle of 0..255 with the seeded engine's draws |
| PerlinTable.DuplicatedIsTable | Perlin.cpp:31-35 | appending a copy of a byte permutation to itself gives a valid 512-entry table |
| PerlinTable.ShuffledIotaIsPermutation | Perlin.cpp:40-47 | shuffling 0..255 gives a permutation of 0..255 for every seed and engine |
| PerlinTable.SeededTable | Perlin.cpp:39-55 | the seeded table is a valid table: a permutation of 0..255 followed by a copy of itself |
| Perlin.Fade | Perlin.cpp:114-116 | the quintic fade curve fixes both ends: fade(0) = 0 and fade(1) = 1 |
| Perlin.FadeBounds | Perlin.cpp:114-116 | fade maps [0, 1] into [0, 1] |
| Perlin.FadeSymmetric | Perlin.cpp:114-116 | fade(1 - t) = 1 - fade(t) |
| Perlin.Lerp | Perlin.cpp:118-120 | lerp gives a at t = 0 and b at t = 1 |
| Perlin.LerpBetween | Perlin.cpp:118-120 | for t in [0, 1], lerp lies between a and b |
| Perlin.LerpBound | Perlin.cpp:118-120 | interpolating between two values of [-m, m] stays in [-m, m] |
| Perlin.Grad | Perlin.cpp:122-129 | grad is the dot product of the offset with the gradient direction listed for hash & 15 in an independent 16-entry table; for offsets in [-1, 1] it is in [-2, 2] |
| Perlin.GradientsAreEdges | Perlin.cpp:125-128 | the 16 directions are cube-edge directions; the first 12 are all 12 edges, each once; the last 4 repeat entries 0, 9, 1 and 11 |
| Perlin.Wrap | Perlin.cpp:60-62 | `floor & 255` gives a cell coordinate in 0..255 congruent to the floor modulo 256, negative floors included |
| Perlin.Offset | Perlin.cpp:65-67 | the offset inside the cell is in [0, 1) |
| Perlin.CornerHashes | Perlin.cpp:75-80 | the six corner hashes, and each hash plus one, stay inside the 512-entry table |
| Perlin.TrilinearBound | Perlin.cpp:83-111 | three rounds of interpolation with weights in [0, 1] keep eight values of [-2, 2] within [-2, 2] |
| Perlin.Blend | Perlin.cpp:70-111 | for offsets in the unit cube, the trilinear blend of the eight corner gradients with the faded offsets is in [-2, 2]; at offset (0, 0, 0) it is 0 |
| Perlin.GradientNoise | Perlin.cpp:58-112 | the noise value of a valid table is in [-2, 2] |
| Perlin.NoiseAtLattice | Perlin.cpp:58-112 | the noise is 0 at every point with integer coordinates |
| Perlin.PeriodicInX | Perlin.cpp:60-67 | the noise repeats every 256 units along x |
| Perlin.ReferencePermutation | Perlin.cpp:8-28 | Ken Perlin's reference table is a permutation of 0..255, with its first and last two entries named |
| Perlin.Generator.constructor | Perlin.cpp:6-36 | the default generator holds a valid table (reference permutation, duplicated) starting 151, 160 and ending 156, 180 in its first half |
| Perlin.Generator.Seeded | Perlin.cpp:39-55 | the seeded generator's table is iota, shuffled with the seeded engine, then duplicated; it is valid, and equal seeds and engines give equal tables |
| Perlin.Generator.Get | Perlin.cpp:58-112 | the noise is in [-2, 2] |
| Perlin.Clamp | Perlin.cpp:213 | the result is in [-1, 1]; values inside are kept, values above become 1, values below become -1 |
| Perlin.OctaveStep | Perlin.cpp:201-210 | one octave turn adds amplitude · noise to the weighted sum of the earlier layers, and the amplitude becomes the next power of the persistence |
| Perlin.OctaveNoise | Perlin.cpp:195-210 | the octave loop computes the sum over i < octaves of persistenceⁱ times the noise at (x·f·2ⁱ/w, y·f·2ⁱ/h, i) |
| Perlin.CellValue | Perlin.cpp:195-213 | every value `generate` stores is in [-1, 1] |
| Perlin.OriginIsZero | Perlin.cpp:201-206 | the octave sum of cell (0, 0) is 0 for every table, frequency and persistence |
| Perlin.GeneratedMap | Perlin.cpp:184-217 | the map `generate` leaves keeps the length of the resized map, and every cell stays in [-1, 1] when every cell of the resized map was |
| Perlin.GeneratedCell | Perlin.cpp:184-215 | with octaves > 0, a cell is written exactly when both coordinates are below min(width, height); it then holds its clamped octave sum in [-1, 1], and every other cell keeps what the resize left |
| Perlin.SquareIsCovered | Perlin.cpp:192-193 | on a square map every cell is written |
| Perlin.WideMapMissesCell | Perlin.cpp:192-193 | on a map wider than it is tall, cell (height, 0) is inside the map but never written |
| Perlin.ProgressStep | Perlin.cpp:193-215 | each `set` in the loops extends the written cells by the next one in loop order |
| Perlin.ProgressDone | Perlin.cpp:192-217 | when the loops end, the map is the generated map |
| Perlin.Noise.constructor | Perlin.cpp:132 | `Noise()` is an empty 0 × 0 map |
| Perlin.Noise.Generated | Perlin.cpp:135-144 | the generating constructor leaves the map `generate` produces from an empty map |
| Perlin.Noise.Get | Perlin.cpp:146-154 | a value in [-1, 1]: 0.0 outside the map, the cell at y·width + x inside |
| Perlin.Noise.Set | Perlin.cpp:157-162 | the map becomes the guarded write of the old map, still with every cell in [-1, 1]; the dimensions are unchanged |
| Perlin.Noise.Resize | Perlin.cpp:165-171 | the new dimensions, and the flat vector resized to width·height with new cells 0.0 |
| Perlin.Noise.Generate | Perlin.cpp:174-218 | the map becomes the resized old map with the reached cells set to their clamped octave sums, using the table of a generator seeded with `seed` (nothing more when octaves = 0) |
| Ppm.Decimal | PPM.cpp:96-98 | `std::to_string` of a non-negative number: at least one decimal digit, no leading zero |
| Ppm.HeaderBytes | PPM.cpp:95-100 | the header starts with "P6\n", ends with "255\n" and is nine bytes longer than the two decimal numbers |
| Ppm.PixelBytes | PPM.cpp:103-105 | three bytes per pixel |
| Ppm.PixelBytesAt | PPM.cpp:103-105 | bytes 3k, 3k+1 and 3k+2 of the pixel data are r, g and b of pixel k |
| Ppm.Encode | PPM.cpp:95-105 | the file is the header followed by three bytes per pixel |
| Ppm.EncodeLength | PPM.cpp:91-112 | the file `write` emits is its header plus exactly 3·width·height bytes |
| Ppm.DigitRun | PPM.cpp:65 | the leading run of decimal digits of a token, up to the first non-digit |
| Ppm.Stoi | PPM.cpp:65 | a value `std::stoi` returns fits in an `int` |
| Ppm.ToU16 | PPM.cpp:65 | conversion to `unsigned short` is below 2¹⁶ and keeps every value already in range |
| Ppm.DecimalValue | PPM.cpp:96-98 | the digits `to_string` writes read back as the number |
| Ppm.DigitRunAll | PPM.cpp:65 | a token made only of digits is read whole |
| Ppm.StoiDecimal | PPM.cpp:65-69 | `std::stoi` of `std::to_string(n)` is n for every `unsigned short` n |
| Ppm.SkipSpace | PPM.cpp:61 | `>>` skips exactly the leading white space |
| Ppm.TokenEnd | PPM.cpp:61 | a token runs up to the next white space or the end of the data |
| Ppm.Extract | PPM.cpp:61-72 | `file >> str` never moves backwards; a stream that is not good fails; a failed extraction leaves the string unchanged; a successful one yields a non-empty token without white space |
| Ppm.Get | PPM.cpp:73 | `get()` on a good stream with data left returns the next byte and advances by one; otherwise it returns EOF and sets fail |
| Ppm.Narrow | PPM.cpp:81 | converting `get()`'s result to `unsigned char` keeps a byte and turns EOF into 255 |
| Ppm.GetNGood | PPM.cpp:79-83 | repeated `get()` from a good stream advances one byte per call while data remains, then fails |
| Ppm.GetNFailed | PPM.cpp:79-85 | once the stream is not good, further `get()` calls keep it failed |
| Ppm.GetNValue | PPM.cpp:79-85 | the n-th `get()` after the header yields data byte n (255 past the end), and the stream has not failed after n calls exactly when n bytes were there |
| Ppm.ExtractToken | PPM.cpp:61-72 | `>>` on a good stream returns the next white-space-delimited token and leaves the stream at the space after it |
| Ppm.ParseHeader | PPM.cpp:60-73 | the parsed dimensions fit in `unsigned short`, and the stream after the header is either good or failed |
| Ppm.Body | PPM.cpp:76-86 | the decoded image has the header's dimensions and width·height pixels |
| Ppm.Decode | PPM.cpp:53-87 | a decoded image has width·height pixels and 16-bit dimensions |
| Ppm.ReorderedTwice | PPM.cpp:81 | swapping red and blue twice gives the pixels back |
| Ppm.ParseEncodedHeader | PPM.cpp:60-73 | parsing the header `write` emits, whatever follows it, gives the written dimensions and a good stream at the first pixel byte |
| Ppm.PixelOfEncoded | PPM.cpp:79-83 | pixel k read from an encoded file is the channel-ordered pixel k that was written |
| Ppm.BodyOfEncoded | PPM.cpp:76-86 | the pixels read after an encoded header are the written pixels, and read reports success |
| Ppm.DecodeEncoded | PPM.cpp:53-112 | round trip: reading what `write` emitted gives back the width, the height and every pixel up to the channel order (red and blue exchanged for a right-to-left reader), with result `true` |
| Ppm.DecodeTruncated | PPM.cpp:53-87 | a file cut short after its header reads with the written dimensions and result `false` |
| PpmImage.ReadComplete | PPM.cpp:85-86 | after the pixel loops the stream has not failed exactly when every pixel byte was present |
| PpmImage.ReadColor | PPM.cpp:81 | the three `get()` calls for pixel k read bytes 3k to 3k+2 and leave the stream after 3(k+1) calls |
| PpmImage.FilledStep | PPM.cpp:79-83 | setting the next pixel in row-major order extends the filled prefix by one |
| PpmImage.FilledAll | PPM.cpp:79-83 | when every pixel is filled, the pixels are those the data determines |
| PpmImage.Image.constructor | PPM.cpp:13 | `Image()` is an empty 0 × 0 image |
| PpmImage.Image.Sized | PPM.cpp:22-24 | `Image(width, height)` is an image of that size with every pixel black |
| PpmImage.Image.Load | PPM.cpp:17-19 | `Image(filename)` holds exactly what `Decode` gives for the file's bytes (empty when `std::stoi` throws) |
| PpmImage.Image.Get | PPM.cpp:27-32 | black outside the image, the pixel at y·width + x inside |
| PpmImage.Image.Set | PPM.cpp:35-40 | the pixels become the guarded write of the old pixels; the dimensions are unchanged |
| PpmImage.Image.Resize | PPM.cpp:43-49 | the new dimensions, and the pixels resized to width·height with new pixels black |
| PpmImage.Image.Read | PPM.cpp:53-87 | when `std::stoi` fails nothing changes and the result is false; otherwise the image takes the decoded dimensions and pixels, and the result says whether every pixel byte was present |
| PpmImage.Image.ReadPixels | PPM.cpp:79-83 | the nested loops fill pixel k from `get()` calls 3k to 3k+2, and leave the stream after 3·width·height calls |
| PpmImage.Image.Write | PPM.cpp:91-112 | the bytes written are `Encode(width, height, pixels)`: the header, then r, g, b of every pixel in index order |
| PpmImage.Image.Filesize | PPM.cpp:115-117 | the result is the number of bytes `write` emits after the header |

## Left out

- Files: `read` and `write` work on the bytes of a file, not on a file name. Opening, closing and flushing the file are not modelled, and neither is `write`'s result. A file that cannot be opened behaves like empty data: every `>>` fails, `std::stoi("")` throws, and `Decode` gives None.
- Exceptions: `std::stoi` throwing is modelled as `Decode` returning None. `Image.Read` then returns false and leaves the image unchanged. Its caller sees no exception.
- PpmImage.Image.Load: when `std::stoi` throws, the source constructs no object at all. The model gives an empty 0 × 0 image instead.
- PpmImage.Image.constructor: `Image()` in the source leaves `width` and `height` uninitialised. The model sets them to 0, as the source's comment says.
- PpmImage.Image.Read: requires `Valid()` (|pixels| = width·height) on entry. Every constructor establishes it and every method keeps it.
- Channel order: C++ leaves the three `file.get()` calls of `Color(file.get(), file.get(), file.get())` indeterminately sequenced, so any of the six orders is allowed. The model covers the two orders compilers use, left to right and right to left, as the parameter `ChannelOrder`, and states the round trip for each. The other four orders are not modelled.
- The random engine: `std::default_random_engine` is a parameter (`Engine`, the number drawn at each shuffle step). `std::shuffle` is modelled as a Fisher–Yates shuffle drawing from it. The actual numbers a standard library produces are not modelled.
- Floating point: doubles are exact reals. Rounding, infinities, NaN and the undefined `(int) floor(x)` for huge x are not modelled. `pow(2, i)` is exact.
- Perlin.GradientNoise: proves the bound [-2, 2], weaker than the [-1, 1] that `Perlin.hpp` documents. That tighter bound depends on the geometry of the gradients, not on the interval reasoning used here.
- Perlin.Generator.Get: proves the bound [-2, 2], weaker than the documented [-1, 1], for the same reason.
- Perlin.Noise.Set: requires the value to be in [-1, 1], so that every cell of a map stays in that range. `set` is private, and its only caller passes a clamped value (Perlin.cpp:213-215).
- Perlin.Noise.Resize, Perlin.Noise.Generate: require `Valid()` on entry, which every constructor establishes and every method keeps.
- Perlin.Generator.constructor: names four entries of the reference table in its contract, plus the fact that it is a valid table. The full 256-entry literal is in the body of `Perlin.ReferencePermutation`.
- Perlin.ReferencePermutation: its contract names only the first two and last two of the 256 entries.
- `Generator::reseed` is declared in `Perlin.hpp` but never defined, so there is nothing to model.
- Bit masks: `& 255` and `& 15` are written as `% 256` and `% 16`, and `h & 1` and `h & 2` as parity tests. These agree for every non-negative value.
- Integer widths: the loop counters are `unsigned short` compared against `unsigned short` bounds, so they never wrap; the model uses unbounded integers.
- PpmImage.Image.Filesize: computes width·height·3 as an unbounded integer. In the source the product is an `int`, which overflows once width·height·3 exceeds 2³¹ − 1.
