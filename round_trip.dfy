/**
 * The partitioner and the stitcher are inverse index maps: stitching the
 * tiles of a mosaic, taken in fov order with the grid shape the partitioner
 * recorded, reproduces the binarised mosaic on the covered region and 0 on
 * the zero padding, and get_boundaries finds that grid shape under the
 * source id of a boundary file named after the CZI stem.
 */
module RoundTrip {
  import opened GridIndex
  import opened Wrappers
  import opened Tiling
  import opened Stitching

  /** The tiles stored for a channel, read back by fov 0, 1, ..., are its tiles in fov order. */
  lemma StoredInFovOrder(dir: string, name: string, m: Mosaic, size: Pos)
    requires m.Valid()
    ensures var store := ChannelTileMap(dir, name, m, size);
            var tiles := ChannelTiles(m, size);
            (forall f :: 0 <= f < |tiles| ==> TileKey(dir, f, name) in store) &&
            seq(|tiles|, f requires 0 <= f < |tiles| => store[TileKey(dir, f, name)]) == tiles
  {
    var tiles := ChannelTiles(m, size);
    TilesUpToKeys(dir, name, tiles, |tiles|);
  }

  /** Every tile the partitioner stores is size x size. */
  lemma ChannelTilesSquare(m: Mosaic, size: Pos)
    requires m.Valid()
    ensures |ChannelTiles(m, size)| == |Offsets(m.w, size)| * |Offsets(m.h, size)|
    ensures AllSquare(ChannelTiles(m, size), size)
  {
    TileGridShape(m, size);
    forall f | 0 <= f < |ChannelTiles(m, size)|
      ensures Square(ChannelTiles(m, size)[f], size)
    {
      ChannelTileSquare(m, size, f);
    }
  }

  lemma ChannelTileSquare(m: Mosaic, size: Pos, f: nat)
    requires m.Valid() && f < |ChannelTiles(m, size)|
    ensures Square(ChannelTiles(m, size)[f], size)
  {
    ChannelTilesCover(m, size, f);
    var cols := |Offsets(m.h, size)|;
    BlockTileSquare(m, size, f / cols, f % cols);
  }

  lemma BlockTileSquare(m: Mosaic, size: Pos, i: nat, j: nat)
    requires m.Valid()
    ensures Square(BlockTile(m, size, i, j), size)
  {
    ExpectedTileCells(m, i * size, j * size, size);
  }

  /**
   * Stitching a mosaic's tiles with its recorded grid shape gives, at every
   * pixel (p, q) of the rows * size by cols * size result, the binarised
   * mosaic pixel where (p, q) falls on the mosaic and 0 in the padding.
   */
  lemma PartitionStitch(m: Mosaic, size: Pos, p: nat, q: nat)
    requires m.Valid()
    requires p < |Offsets(m.w, size)| * size && q < |Offsets(m.h, size)| * size
    ensures var rows, cols := |Offsets(m.w, size)|, |Offsets(m.h, size)|;
            var tiles := ChannelTiles(m, size);
            |tiles| == rows * cols && AllSquare(tiles, size) &&
            Tall(Grid(tiles, rows, cols), size) &&
            p < |Stitch(Grid(tiles, rows, cols), size)| && q < |Stitch(Grid(tiles, rows, cols), size)[p]| &&
            Stitch(Grid(tiles, rows, cols), size)[p][q] == (if p < m.w && q < m.h then Bin(m.px[p][q]) else 0)
  {
    var rows, cols := |Offsets(m.w, size)|, |Offsets(m.h, size)|;
    var tiles := ChannelTiles(m, size);
    ChannelTilesSquare(m, size);
    StitchPixel(tiles, rows, cols, size, p, q);
    var i, j, r, c := p / size, q / size, p % size, q % size;
    FovInverse(p, rows, size);
    FovInverse(q, cols, size);
    FovClosed(i, r, size);
    FovClosed(j, c, size);
    ChannelTilesAt(m, size, i, j);
    ExpectedTileCells(m, i * size, j * size, size);
  }

  /**
   * The whole round trip through get_boundaries: when the masks of a CZI
   * file are saved as its channel tiles in fov order, the boundary file is
   * named `<prefix>-<stem>`, and the grid shape recorded for the stem is
   * the partitioner's, the mask shown is the binarised mosaic on the
   * covered region and 0 in the padding.
   */
  lemma BoundariesOfPartition(prefix: string, stem: string, metadata: map<string, GridRecord>, m: Mosaic)
    requires m.Valid() && m.w > 0 && m.h > 0 && '-' !in stem
    requires stem in metadata && metadata[stem] == GridOf(m, MASK_TILE, stem)
    ensures var rows, cols := |Offsets(m.w, MASK_TILE)|, |Offsets(m.h, MASK_TILE)|;
            var res := Boundaries(prefix + "-" + stem, metadata, Pack(ChannelTiles(m, MASK_TILE)));
            res.Success? && |res.value| == rows * MASK_TILE && Width(res.value, cols * MASK_TILE) &&
            forall p, q :: 0 <= p < rows * MASK_TILE && 0 <= q < cols * MASK_TILE ==>
              res.value[p][q] == (if p < m.w && q < m.h then Bin(m.px[p][q]) else 0)
  {
    var rows, cols := |Offsets(m.w, MASK_TILE)|, |Offsets(m.h, MASK_TILE)|;
    var tiles := ChannelTiles(m, MASK_TILE);
    SourceIdAfterDash(prefix, stem);
    ChannelTilesSquare(m, MASK_TILE);
    PackReshape(tiles, MASK_TILE);
    OffsetsFromCount(0, m.w, MASK_TILE);
    OffsetsFromCount(0, m.h, MASK_TILE);
    StitchShape(tiles, rows, cols, MASK_TILE);
    var res := Boundaries(prefix + "-" + stem, metadata, Pack(tiles));
    assert res == Success(Stitch(Grid(tiles, rows, cols), MASK_TILE));
    forall p, q | 0 <= p < rows * MASK_TILE && 0 <= q < cols * MASK_TILE
      ensures res.value[p][q] == (if p < m.w && q < m.h then Bin(m.px[p][q]) else 0)
    {
      PartitionStitch(m, MASK_TILE, p, q);
    }
  }

  /**
   * The round trip needs a stem without '-': the partitioner records the
   * grid shape under the whole stem, but get_boundaries looks up only the
   * part after the last '-', so the masks of a stem such as `s-1` are never
   * stitched.
   */
  lemma DashedStemNotFound(prefix: string, stem: string, rec: GridRecord, flat: seq<int>)
    requires '-' in stem
    ensures SourceId(stem) != stem
    ensures var res := Boundaries(prefix + "-" + stem, map[stem := rec], flat);
            res.Failure? && res.error == MetadataMissing(SourceId(stem))
  {
    assert prefix + "-" + stem == (prefix + "-") + stem;
    SourceIdOfDashedTail(prefix + "-", stem);
  }

  /**
   * After a run of the partitioner with the one-shot flag lowered per file
   * and 2048-pixel tiles, the masks of any tiled file whose stem no later
   * file reuses are stitched back by get_boundaries into its binarised
   * channel-0 mosaic.
   */
  lemma BoundariesAfterRun(prefix: string, files: seq<CziImage>, m0: map<string, GridRecord>, done: nat, i: nat)
    requires i < done <= |files| && files[i].Valid() && |files[i].channels| > 0
    requires files[i].channels[0].w > 0 && files[i].channels[0].h > 0 && '-' !in files[i].stem
    requires forall i' :: i < i' < done ==> files[i'].stem != files[i].stem
    ensures var m := files[i].channels[0];
            var rows, cols := |Offsets(m.w, MASK_TILE)|, |Offsets(m.h, MASK_TILE)|;
            var res := Boundaries(prefix + "-" + files[i].stem, m0 + RecordsOf(files, MASK_TILE, done),
                                  Pack(ChannelTiles(m, MASK_TILE)));
            res.Success? && |res.value| == rows * MASK_TILE && Width(res.value, cols * MASK_TILE) &&
            forall p, q :: 0 <= p < rows * MASK_TILE && 0 <= q < cols * MASK_TILE ==>
              res.value[p][q] == (if p < m.w && q < m.h then Bin(m.px[p][q]) else 0)
  {
    RecordsOfLast(files, MASK_TILE, done, i);
    BoundariesOfPartition(prefix, files[i].stem, m0 + RecordsOf(files, MASK_TILE, done), files[i].channels[0]);
  }
}
