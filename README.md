# Final_Cell_Segmentation: tiling, stitching and gating in Dafny

This project models three parts of the Final_Cell_Segmentation pipeline and
proves properties about them.

- **The tile partitioner** (`tile_czi_file` and `write_tile_breakdown` in
  `tile_czi.py`). Each channel mosaic of a CZI file is cut into a grid of
  `TILE_SIZE x TILE_SIZE` tiles. Offsets step by `TILE_SIZE`. Edge tiles are
  clipped to the raster and zero-padded. Tiles are numbered with a running
  field-of-view (fov) counter in row-major order. A `fov,x,x_end,y,y_end`
  line is written per tile of channel 0. The grid shape is recorded behind
  the module-level one-shot `written` flag.
- **The mask stitcher** (`get_boundaries` in `final_viewer_main.py`). It:
  1. takes the source id from the boundary file's stem;
  2. looks up the recorded grid shape;
  3. reshapes the mask buffer into `rows * cols` tiles of 2048 x 2048;
  4. binarises each tile;
  5. concatenates tiles left to right into strips, and strips top to bottom;
  6. builds an RGBA image whose alpha plane is `255 * mask`.
- **Gating** (`load_cell_data`, `threshold_slider_change`, `save` and
  `update_cell_types` in `final_viewer_main.py`):
  - There is one threshold per marker channel, each starting at 0.0.
  - A marker is expressed when its value is strictly above its threshold.
  - Seven conjunctive rules over the expressed flags give each cell its type.

Modules:

- `GridIndex` (`grid_index.dfy`) holds the shared index arithmetic: `arange`
  offsets, clipped extents, row-major fov numbering and its inverse, and
  flattening and chunking.
- `Tiling` (`tiling.dfy`) holds the partitioner. Class `Tiler` holds the
  `written` flag and the records, tiles and bounding-box files on disk, as
  fields the methods update.
- `Stitching` (`stitching.dfy`) holds the stitcher. Its loops accumulate the
  strips and the mask, and the alpha plane is an `array3` overwritten in
  place.
- `RoundTrip` (`round_trip.dfy`) states that stitching a partition gives the
  binarised mosaic back.
- `Gating` (`gating.dfy`) holds the rules. Class `GatingSession` holds the
  thresholds and the cell table.
- `Wrappers` (`wrappers.dfy`) holds `Option` and `Result`.

Files, the CZI decoder, the TIFF writer and napari are parameters and fields:
- a decoded CZI file is a stem plus one integer mosaic per channel;
- the tile store is a map from `(directory, fov, channel)` to tile;
- the grid-shape records are a map from stem to `(rows, cols, filename)`;
- the cell table is a sequence of rows, each holding marker values, expressed
  flags and an optional `cell_type`.

## Model

| member | source | states |
|---|---|---|
| GridIndex.OffsetsShape | tile_czi.py:153-154 | there are ceil(n / TILE_SIZE) offsets along an axis of length n; offset k is k * TILE_SIZE and lies below n |
| GridIndex.ExactMultipleOffsets | tile_czi.py:153-154 | an axis that is an exact multiple of the tile size gets no extra tile |
| GridIndex.ExtentIsClip | tile_czi.py:160-163 | the end of a tile's region lies after its start and not past the raster edge, spans at most one tile, and equals min(n, x + TILE_SIZE) |
| GridIndex.Extent | tile_czi.py:160-163 | the end of a tile's region is the raster edge or a full stride on; it never passes the stride, never passes the edge when the tile starts on the raster, and lies after a start on the raster |
| GridIndex.ExtentsAlongAxis | tile_czi.py:159-172 | every tile on an axis except the last covers a full tile; the last one ends exactly at the raster edge |
| GridIndex.FovClosed | tile_czi.py:148-193 | the running counter's value at grid cell (i, j) is i * cols + j |
| GridIndex.FovShift | tile_czi.py:193 | each step of the column loop adds exactly 1 to the fov |
| GridIndex.FovBijection | tile_czi.py:159-193 | the fov of cell (i, j) is below rows * cols and decodes back to (i, j) |
| GridIndex.FovInverse | tile_czi.py:159-193 | every number below rows * cols is the fov of the cell (f / cols, f % cols) |
| GridIndex.FovInjective | tile_czi.py:159-193 | distinct grid cells get distinct fovs |
| Tiling.ExpectedTileCells | tile_czi.py:165-175 | a tile is TILE_SIZE x TILE_SIZE; a cell holds the mosaic pixel where that pixel exists and 0 otherwise, so padding lies only below and to the right |
| Tiling.TileGridShape | tile_czi.py:153-159 | a channel has one grid row per row offset and one column per column offset, so rows * cols tiles |
| Tiling.BBoxGridShape | tile_czi.py:191-192 | channel 0 writes rows * cols bounding-box lines |
| Tiling.ChannelTilesAt | tile_czi.py:159-193 | the tile of grid cell (i, j) is stored under fov i * cols + j and is the block starting at (i * TILE_SIZE, j * TILE_SIZE) |
| Tiling.BBoxLinesAtCell | tile_czi.py:191-192 | the bounding-box line at fov i * cols + j holds that block's start offsets and clipped ends |
| Tiling.ChannelTilesCover | tile_czi.py:148-193 | every fov below rows * cols numbers exactly one stored tile, the tile of cell (fov / cols, fov % cols) |
| Tiling.BBoxLinesAt | tile_czi.py:142-192 | tile_metadata.txt has exactly one line per fov, in fov order, and each line carries its own fov |
| Tiling.TilesUpToKeys | tile_czi.py:177-189 | after fovs 0 .. k-1 of a channel are stored, the store holds exactly their keys, each with its own tile |
| Tiling.RecordsOfLast | tile_czi.py:101-111 | with the flag lowered per file, every tiled file that has a channel and whose stem no later file in the run reuses gets the grid shape of its channel 0 under its stem (a later file with the same stem replaces the record) |
| Tiling.RecordsOfDomain | tile_czi.py:101-111 | with the flag lowered per file, only stems of tiled files that have a channel get a record |
| Tiling.Tiler.constructor | tile_czi.py:47-49 | a process starts with the flag down and no records written |
| Tiling.Tiler.WriteTileBreakdown | tile_czi.py:101-111 | the record (rows, cols, stem) is stored under the stem and the flag is raised |
| Tiling.Tiler.CopyTile | tile_czi.py:165-175 | a zero-filled TILE_SIZE x TILE_SIZE buffer gets the window [x, x_end) x [y, y_end) copied into its top-left corner, and nothing else |
| Tiling.Tiler.StoreTile | tile_czi.py:159-193 | one iteration of the inner loop stores the tile of cell (i, j) under its fov; for channel 0 it also appends that cell's bounding-box line |
| Tiling.Tiler.TileRow | tile_czi.py:165-193 | one pass of the column loop advances the fov from i * cols to (i + 1) * cols and stores row i's tiles and lines in order |
| Tiling.Tiler.StoreNext | tile_czi.py:165-193 | storing the tile of cell (i, j) extends the channel's progress by exactly one fov, and the next fov is that of cell (i, j + 1) |
| Tiling.Tiler.TileChannel | tile_czi.py:146-193 | tiling a channel adds exactly its tiles, in fov order, to the store; for channel 0, and only then, it appends one bounding-box line per tile |
| Tiling.Tiler.TileFileChannel | tile_czi.py:146-157 | a channel records the grid shape only while the flag is down, then its tiles are stored |
| Tiling.Tiler.TileCziFile | tile_czi.py:121-193 | a channel-count mismatch fails before anything is written; otherwise every channel's tiles are stored, the bounding-box file holds channel 0's lines, and the grid shape is recorded (and the flag raised, one write counted) iff the flag was down and the file has a channel |
| Tiling.Tiler.TileNextFile | tile_czi.py:121-132 | tiling the next file of a run either extends the run's stores by that file or, on a channel-count mismatch, leaves them unchanged |
| Tiling.Tiler.TileCziFiles | tile_czi.py:120-193 | as written: files are tiled in order up to the first mismatch; a record is written only when the flag was down, some file was tiled and there is a channel, and then it is the first file's; the records stay as they were otherwise; the flag ends up raised iff it was up or such a record was written, and the write count grows by at most 1 |
| Tiling.Tiler.RunFilesOnce | tile_czi.py:120-132 | the as-written file loop stops at the first channel-count mismatch; the stores hold the tiles and boxes of every file before it, and the one-shot state is the first file's record or nothing |
| Tiling.Tiler.TileNextFileOnce | tile_czi.py:121-157 | one file of the as-written run, with the flag kept from earlier files: either the stores and one-shot state extend by the file, or on a mismatch they stay as they were |
| Tiling.Tiler.TileCziFilesPerSource | tile_czi.py:120-193 | corrected: the same run, but the records become the earlier ones plus one per tiled file with a channel, each under its stem, a later file with the same stem replacing the earlier record; so a tiled file whose stem no later file reuses gets the record of its channel 0; one breakdown write is counted per tiled file when channels are configured, and the flag ends down after a mismatch |
| Tiling.Tiler.TileNextSource | tile_czi.py:121-157 | corrected run, one file (the flag is lowered first): on success the stores extend by the file and its stem gets its channel-0 grid shape on top of the earlier records; on a mismatch tiles, boxes and records stay as they were; the flag ends raised exactly when the file was tiled with channels configured, with one write counted then |
| Tiling.TwoFileRun | tile_czi.py:156-157 | with two one-channel files, the as-written run records only the first file and the corrected run records both |
| Stitching.SourceId | final_viewer_main.py:269 | the source id contains no '-', is a suffix of the stem, and is either the whole stem or preceded by '-' |
| Stitching.SourceIdAfterDash | final_viewer_main.py:269 | the id of `<prefix>-<id>` is id, whatever the prefix |
| Stitching.SourceIdNoDash | final_viewer_main.py:269 | a stem without '-' is its own id |
| Stitching.SourceIdOfDashedTail | final_viewer_main.py:269 | when the tail of a file name contains '-', whatever precedes it does not change the source id |
| Stitching.Reshape | final_viewer_main.py:286 | the reshape succeeds iff the buffer holds rows * cols * 2048 * 2048 values, and then gives rows * cols square tiles |
| Stitching.ReshapePack | final_viewer_main.py:286 | reshaping loses nothing: packing the tiles gives the buffer back |
| Stitching.PackReshape | final_viewer_main.py:286 | reshaping the packed buffer gives the tiles back |
| Stitching.ReshapeAt | final_viewer_main.py:286 | tile k, row r, column c of the reshape is buffer value (k * T + r) * T + c (C order) |
| Stitching.StripShape | final_viewer_main.py:299-305 | a strip of n square tiles is T rows of n * T pixels |
| Stitching.StitchShape | final_viewer_main.py:297-310 | the stitched mask is (rows * 2048) x (cols * 2048) |
| Stitching.StitchAt | final_viewer_main.py:297-310 | pixel (i * T + r, j * T + c) is the binarised cell (r, c) of tile i * cols + j, the same index the partitioner assigned |
| Stitching.StitchPixel | final_viewer_main.py:300-310 | every stitched pixel (p, q) comes from tile (p / T) * cols + q / T and is 0 or 1 |
| Stitching.StitchedPixels | final_viewer_main.py:297-310 | the stitched mask is (rows * T) x (cols * T) and every pixel is the binarised cell of the tile the fov numbering assigns to it |
| Stitching.StitchRow | final_viewer_main.py:299-305 | the column loop leaves row_concat equal to the strip of grid row i |
| Stitching.Bin | final_viewer_main.py:300 | `np.where(v > 0, 1, 0)` gives 0 or 1, and 1 exactly for positive values |
| Stitching.StitchMasks | final_viewer_main.py:297-310 | the row loop leaves final_concat equal to all strips stacked top to bottom |
| Stitching.StitchRecordOutcome | final_viewer_main.py:281-310 | given a record, the mask is built iff the grid is non-empty and the buffer has rows * cols * T * T values; a size mismatch is reported before an empty grid; the built mask has the recorded shape and each pixel comes from its tile |
| Stitching.StitchRecord | final_viewer_main.py:281-310 | once the record is found, a mask is produced iff the grid is non-empty and the buffer has rows * cols * T * T values; its failures are never a missing record |
| Stitching.BoundariesOutcome | final_viewer_main.py:268-310 | a mask is shown iff the record exists, the buffer has the recorded size and the grid is non-empty; the mask then has the recorded shape and each pixel is the binarised cell of its tile |
| Stitching.Boundaries | final_viewer_main.py:268-310 | the record is reported missing exactly when the source id of the file stem has no record; a mask is shown only for a found, non-empty record whose size matches the buffer |
| Stitching.ToRgba | final_viewer_main.py:315-317 | the grayscale image becomes RGBA, with the gray level in R, G and B and an alpha of 255 |
| Stitching.MaskImage | final_viewer_main.py:297-318 | for a non-empty grid of square tiles the image is (rows * T) x (cols * T) x 4, freshly allocated, and every channel of every pixel is 255 times the stitched mask |
| Stitching.ShowRecord | final_viewer_main.py:281-319 | fails exactly when StitchRecord does, with the same error; otherwise shows StitchRecord's mask as an RGBA image with every channel 255 * mask |
| Stitching.GetBoundaries | final_viewer_main.py:268-319 | fails exactly when the specification function does, with the same error; otherwise every channel of every pixel equals 255 * mask, so background is transparent black and boundaries opaque white |
| RoundTrip.StoredInFovOrder | tile_czi.py:177-193 | the tiles stored for a channel, read back by fov 0, 1, ..., are its tiles in fov order |
| RoundTrip.ChannelTilesSquare | tile_czi.py:167 | a channel has rows * cols tiles and every one of them is square |
| RoundTrip.PartitionStitch | final_viewer_main.py:297-310 | stitching a mosaic's tiles with its recorded shape gives the binarised mosaic on the covered region and 0 on the padding |
| RoundTrip.BoundariesOfPartition | final_viewer_main.py:268-310 | for a non-empty mosaic (width and height above 0) and a stem without '-', a boundary file `<prefix>-<stem>` whose buffer packs the partitioner's tiles is found under the stem's record, and get_boundaries shows the binarised mosaic, with 0 on the padding |
| RoundTrip.BoundariesAfterRun | tile_czi.py:101-111 | after the corrected run, get_boundaries turns the masks of any tiled file back into its binarised channel-0 mosaic, provided that mosaic is non-empty, the stem has no '-' and no later file in the run reuses the stem |
| RoundTrip.DashedStemNotFound | final_viewer_main.py:269-272 | a stem containing '-' is not its own source id, so a boundary file `<prefix>-<stem>` is looked up under the wrong id and reports the record missing, even though the partitioner (tile_czi.py:110) recorded the stem |
| Gating.GateAt | final_viewer_main.py:128-129 | every channel gets a flag, set exactly when its value is strictly above its threshold |
| Gating.GateMove | final_viewer_main.py:163-165 | moving one threshold and recomputing that channel's flag gives the flags of the new thresholds |
| Gating.GateMonotone | final_viewer_main.py:129 | raising a threshold can only clear a flag |
| Gating.GateOverrides | final_viewer_main.py:189-190 | recomputing every flag column replaces whatever flags were stored |
| Gating.SetColumn | final_viewer_main.py:129 | recomputing the flag column of channel c sets every row's flag c to value > threshold and leaves its values, its cell type and every other flag as they were |
| Gating.SliderKeepsGates | final_viewer_main.py:157-169 | when every flag agreed with the old thresholds, moving threshold c to v and recomputing column c leaves every flag agreeing with the new thresholds |
| Gating.Matching | final_viewer_main.py:214-256 | a cell type is among the matches iff it is among the rules and its rule holds |
| Gating.Matches | final_viewer_main.py:216-256 | every one of the seven rules asks for DAPI expressed and for at least one other expressed marker |
| Gating.LastMatch | final_viewer_main.py:260-261 | the last-wins loop leaves 'other' exactly when no rule matches, otherwise the type of a rule that matches; never 'assigned_twice' |
| Gating.Assigned | final_viewer_main.py:258-263 | 'other' exactly when no rule matches; a single matching rule's type when exactly one does; 'assigned_twice' exactly when more than one does |
| Gating.LastMatchIsLast | final_viewer_main.py:260-261 | the assignment loop leaves 'other' when nothing matches, otherwise the last matching type |
| Gating.MatchingCount | final_viewer_main.py:258 | a type is counted among the matches as often as it occurs in the rules if its rule holds, and never otherwise |
| Gating.MatchingPermutation | final_viewer_main.py:258-261 | reordering the rules does not change which types match |
| Gating.AssignedPermutation | final_viewer_main.py:258-263 | applying any permutation of the rules gives 'other' with no match, the type with one match, and 'assigned_twice' with several |
| Gating.AssignedAnyOrder | final_viewer_main.py:258-263 | the final label is the same in whatever order the seven rules are applied |
| Gating.AssignedIsClassify | final_viewer_main.py:212-263 | update_cell_types gives the label the rules intend |
| Gating.RulesExclusive | final_viewer_main.py:216-256 | no two of the seven rules can hold for the same cell |
| Gating.AtMostOneMatch | final_viewer_main.py:216-258 | among distinct rules, at most one matches |
| Gating.NeverAssignedTwice | final_viewer_main.py:258-263 | no cell is ever labelled 'assigned_twice' |
| Gating.GatingSession.constructor | final_viewer_main.py:57-60 | every channel threshold starts at 0.0 and no cell data is loaded |
| Gating.GatingSession.LoadCellData | final_viewer_main.py:114-129 | the loaded table keeps its values and cell types, and every flag equals value > threshold, so the session is consistent |
| Gating.GatingSession.UpdateCellTypes | final_viewer_main.py:201-265 | every cell gets the label of last-match-wins plus the 'assigned_twice' override, which is the label the rules intend; nothing else changes |
| Gating.GatingSession.ThresholdSliderChange | final_viewer_main.py:157-169 | only the selected marker's threshold moves; only its flag column is recomputed; the cells are relabelled; a consistent session stays consistent |
| Gating.GatingSession.Save | final_viewer_main.py:176-192 | one gate line per channel in channel order with its threshold, and the table with every flag recomputed from the thresholds; the session does not change |

## Left out

- The napari viewer, the magicgui widgets, layer visibility (`shown`), colours, `load_new_image`, `cell_type_changed` and the property plotter. These are UI wiring. A shown image layer is modelled as the `Success` value of `GetBoundaries`.
- CZI decoding, TIFF writing, and JSON, CSV and NPY reading and writing. These are parameters and fields:
  - a decoded CZI file is a stem plus its channel mosaics;
  - written tiles are a map keyed by directory, fov and channel name;
  - grid-shape records are a map keyed by stem;
  - the mask buffer is a flat sequence in C order.
- Directory creation and resume (`mkdir`, `FileExistsError`, `isdir`). Debug printing, the argument parser and the interactive channel menu of `tile_czi.py` are not modelled either.
- The header line `fov,x1,x2,y1,y2` of `tile_metadata.txt`. Only the data lines are modelled. Opening the file in write mode is modelled as resetting the directory's lines before channel 0 appends.
- Floating-point pixels. `np.zeros` tiles are float, but pixels are modelled as integers; binarisation only compares with 0.
- Stitching.GetBoundaries: every failure to open or parse the metadata file is the single error `MetadataMissing`. Every failure to load the mask file is the single error `ShapeMismatch`, because the buffer is an input.
- Stitching.GetBoundaries: the model writes the alpha plane of the RGBA array in place. The source gets that array from `np.asarray` of a PIL image (final_viewer_main.py:317), which recent Pillow and NumPy versions may return read-only, so line 318 would raise. This depends on library versions and is not modelled.
- RoundTrip.BoundariesOfPartition and RoundTrip.BoundariesAfterRun: the round trip is promised only for stems without '-'. For a stem with '-' the source looks up only the part after the last '-', so the masks are never found (RoundTrip.DashedStemNotFound). Source ids are the token after the last '-' by design, so this is recorded as a limit rather than as a defect.
- Stitching.GetBoundaries: a record with 0 rows or 0 columns and an empty buffer makes the source raise (`None * 255`, or `a[0]` of an empty array). This is modelled as the error `EmptyGrid`, with no layer added.
- Stitching.ToRgba: PIL's `convert("RGBA")` is modelled by its documented behaviour for 8-bit grayscale: the gray level in R, G and B, and alpha 255. The `uint8` cast is exact here, because the scaled mask is only 0 or 255.
- Gating marker values and thresholds are reals, not floats. The slider's range (0 to 20) and the `str(float)` formatting of the gate lines are not modelled.
- Gating.GatingSession.Save: the date stamps of the gate lines and of the CSV file name are left out (a clock). The gate lines are returned rather than appended to `<image>_thresholds.txt`.
- Gating.GatingSession.LoadCellData: a table without a column for some marker makes the source raise `KeyError`. This is modelled as a precondition that every row has every marker value.
- Gating.Matches: a missing `_expressed` column counts as a rule not holding, whereas the source would raise. No such state is reachable in a session, because every row has every flag once it is loaded.
- `_expressed` columns are stored as `int8`/`uint8` 0/1. They are modelled as booleans.
- The marker dropdown: its 'Tumor' entry carries the value `PanCK`, so the selected channel is a `Channel` value.

## Findings

| source | as written | input that shows it | evidently intended | confidence | as-written member | corrected member |
|---|---|---|---|---|---|---|
| tile_czi.py:156-157 | `written` is a module-level flag that is never lowered, so in a run over several CZI files only the first file gets `.<stem>_metadata.json` | one invocation with two one-channel files `a` and `b`: `a` gets a record, `b` gets none, and `get_boundaries` for `b`'s masks finds no grid shape | every tiled file records its own grid shape once (the flag is checked inside the channel loop, so once per file) | not executed | Tiling.TwoFileRun | Tiling.Tiler.TileCziFilesPerSource |
