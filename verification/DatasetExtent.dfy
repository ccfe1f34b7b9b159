/** Size of a dataset's extent, computed in 32-bit unsigned arithmetic that may wrap half-way. */
module DatasetExtent {

  const WORD: int := 0x1_0000_0000
  const BYTES_PER_TRACK: int := 56664
  const TRACKS_PER_CYLINDER: int := 15
  const BYTES_PER_CYLINDER: int := 849960

  /** Cylinder and track of an extent's lower and upper end, as the volume label gives them. */
  datatype Extent = Extent(lowCyl: int, lowTrk: int, highCyl: int, highTrk: int)

  /** primarySizeBytes, with every intermediate result reduced to a word. */
  function PrimarySizeBytes(e: Extent): (bytes: int)
    ensures 0 <= bytes < WORD
  {
    var diffCyl := (e.highCyl - e.lowCyl) % WORD;
    var diffTrk := ((e.highTrk - e.lowTrk) % WORD + 1) % WORD;
    ((diffCyl * BYTES_PER_CYLINDER) % WORD + (diffTrk * BYTES_PER_TRACK) % WORD) % WORD
  }

  function ReportedTracks(e: Extent): int {
    PrimarySizeBytes(e) / BYTES_PER_TRACK
  }

  function ReportedCylinders(e: Extent): int {
    PrimarySizeBytes(e) / BYTES_PER_CYLINDER
  }

  /** The number of tracks the extent really has. */
  function Tracks(e: Extent): int {
    (e.highCyl * TRACKS_PER_CYLINDER + e.highTrk) - (e.lowCyl * TRACKS_PER_CYLINDER + e.lowTrk) + 1
  }

  lemma Remainder(x: int, q: int, r: int)
    requires x == WORD * q + r && 0 <= r < WORD
    ensures x % WORD == r
  {
  }

  /** Reducing a factor does not change the reduced product. */
  lemma ReducedProduct(x: int, k: int)
    ensures ((x % WORD) * k) % WORD == (x * k) % WORD
  {
    var q, r := x / WORD, x % WORD;
    var p := r * k;
    assert x * k == WORD * (q * k) + p by {
      assert x == WORD * q + r;
      assert (WORD * q + r) * k == WORD * (q * k) + r * k;
    }
    Remainder(x * k, q * k + p / WORD, p % WORD);
  }

  lemma ReducedSum(x: int, y: int)
    ensures (x % WORD + y % WORD) % WORD == (x + y) % WORD
  {
  }

  /** However the steps wrap, the result is the true size reduced once. */
  lemma SizeIsExactModuloWord(e: Extent)
    ensures PrimarySizeBytes(e) == (Tracks(e) * BYTES_PER_TRACK) % WORD
  {
    var cyl, trk := e.highCyl - e.lowCyl, e.highTrk - e.lowTrk + 1;
    assert ((e.highTrk - e.lowTrk) % WORD + 1) % WORD == trk % WORD by {
      ReducedSum(e.highTrk - e.lowTrk, 1);
    }
    ReducedProduct(cyl, BYTES_PER_CYLINDER);
    ReducedProduct(trk, BYTES_PER_TRACK);
    ReducedSum(cyl * BYTES_PER_CYLINDER, trk * BYTES_PER_TRACK);
    assert cyl * BYTES_PER_CYLINDER + trk * BYTES_PER_TRACK == Tracks(e) * BYTES_PER_TRACK;
  }

  /** The reported track count is right exactly for extents that do not end before they start and are
      smaller than 2^32 bytes; the reported cylinder count is then right too. */
  lemma TracksAreExact(e: Extent)
    ensures ReportedTracks(e) == Tracks(e) <==> 0 <= Tracks(e) && Tracks(e) * BYTES_PER_TRACK < WORD
    ensures 0 <= Tracks(e) && Tracks(e) * BYTES_PER_TRACK < WORD ==>
      ReportedCylinders(e) == Tracks(e) / TRACKS_PER_CYLINDER
  {
    SizeIsExactModuloWord(e);
    var t := Tracks(e);
    if 0 <= t && t * BYTES_PER_TRACK < WORD {
      Remainder(t * BYTES_PER_TRACK, 0, t * BYTES_PER_TRACK);
    }
  }

  /** An extent of 5054 cylinders, just above 2^32 bytes, is reported as 12 tracks. */
  lemma LargeExtentWraps()
    ensures Tracks(Extent(0, 0, 5053, 14)) == 75810 && ReportedTracks(Extent(0, 0, 5053, 14)) == 12
  {
    SizeIsExactModuloWord(Extent(0, 0, 5053, 14));
  }

  /** An extent that ends two tracks before it starts is reported as 75796 tracks. */
  lemma ReversedExtentWraps()
    ensures Tracks(Extent(0, 2, 0, 0)) == -1 && ReportedTracks(Extent(0, 2, 0, 0)) == 75796
  {
    SizeIsExactModuloWord(Extent(0, 2, 0, 0));
  }
}
