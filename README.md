# VMF2MAP conversion core in Dafny

VMF2MAP turns a level-editor `.vmf` file into a `.map` file. It walks the file's nested
`{ ... }` blocks: the `world` block and every `entity` block, their `solid` brushes, each
brush's `side` blocks, and each side's optional `dispinfo` displacement with its `normals`,
`distances` and `alphas` row blocks. For every entity it writes a `{` line, one
`"key" "value"` line per property, and the output of its brushes, then `}`. A brush with no
displacement is written as its face lines. Each face line holds the three plane points moved
by the entity's `origin`, the material with `tools/...` textures renamed to `system/...`, the
texture axes, and the detail flag `134217728` when the entity's class name ends in `detail`.
A brush with a displacement is written instead as one `patchDef2` block per displaced side.

The model covers the following parts of `VMF2MAP/Program.cs`:

- **`Properties`**: the case-insensitive property dictionary `EntityProperties`. It is a
  class whose `entries` field the methods update. `FromString` reads the first run of
  `"key" "value"` pairs, where a later pair overwrites an earlier one with the same key.
  `Equals` compares by content.
- **`Text`**: the string operations the code relies on:
  - collapsing whitespace runs and splitting on spaces;
  - trimming;
  - padding a plane's parentheses;
  - ASCII lower-casing;
  - decimal rendering of naturals.
- **`Vectors`**: `parseVector3`, `parseVector3Array` (the number-triple pattern),
  `parseDoubleArray` and the texture-axis pattern. Each pattern is a scanner over the
  string.
- **`Materials`**: the `tools/` material switch.
- **`Displacement`**: the `row0`, `row1`, ... scans of the `normals`, `distances` and
  `alphas` blocks.
- **`Patches`**: the `patchDef2` writer:
  - the size header;
  - the choice of the four corners around the start position;
  - the grid of points, filled row by row into two-dimensional arrays;
  - the rows of `( x y z u v )` cells read back out of those arrays.
- **`Converter`**: the conversion loop itself, as methods with loops. Each method is proved
  equal to a specification function: `ConvertAll`, `ConvertEntity`, `ConvertBrushes`,
  `ConvertBrush`, `ReadSides`, `ReadSide`, `ReadFace`, `ReadSideDisp`, `ReadDispInfo`,
  `CompleteSides` and `WritePatches`.
- **`ConversionFacts`**: what the conversion writes, stated against reference definitions:
  - which blocks are written at all;
  - when the conversion fails;
  - what a detail face looks like;
  - when a brush is written as faces and when as patches.
- **`Braces`**: the balanced-block shape `\{(?:[^\{\}]+|(?R))*\}` used by the block
  patterns, as a recogniser that is proved to accept exactly the balanced blocks. It stands
  alone: the conversion takes the block tree as given and does not use it.

**Numbers and errors.** Floating-point numbers are a type parameter `N`. Parsing, formatting,
subtraction, the patch grid arithmetic and `Side.completeSide` are parameters of the model:
the `Env` and `PatchMath` records. Any exception the code would throw aborts the whole run
before the output files are written. The model therefore returns `None` for it. Exceptions
covered this way:

- a missing dictionary key;
- a `null` result of `FromString` or `parseVector3`;
- a number that does not parse;
- an index outside an array.

## Model

| member | source | states |
|---|---|---|
| Properties.EntityProperties.constructor | VMF2MAP/Program.cs:603-605 | a new dictionary is empty |
| Properties.EntityProperties.Set | VMF2MAP/Program.cs:633 | the indexer assignment replaces the value of a key already present (in any case) and appends a new key otherwise |
| Properties.EntityProperties.FromString | VMF2MAP/Program.cs:619-639 | the result is null exactly when the text holds no `"key" "value"` pair; otherwise it holds the first run of pairs, built by successive assignments |
| Properties.EntityProperties.Equals | VMF2MAP/Program.cs:644-662 | true exactly when the other dictionary is not null, has as many entries, and maps every key of this one to the same value |
| Properties.Assign | VMF2MAP/Program.cs:633 | after an assignment the key reads the new value and every other key reads what it did before; the key set grows by the key; keys stay distinct |
| Properties.Build | VMF2MAP/Program.cs:629-634 | the dictionary built from a run has distinct keys |
| Properties.BuildIsLastWriteWins | VMF2MAP/Program.cs:629-634 | a key of the built dictionary reads the value of the last pair in the run with that key, compared without case |
| Properties.BuildKeys | VMF2MAP/Program.cs:603-634 | the built dictionary has one entry per distinct key of the run, ignoring case |
| Properties.LookupIgnoresCase | VMF2MAP/Program.cs:603 | two keys that differ only in case read the same value |
| Properties.KeySetSize | VMF2MAP/Program.cs:649 | a dictionary's count is the number of its distinct keys |
| Properties.Quoted | VMF2MAP/Program.cs:619 | a quoted field is a `"`, at least one non-quote character, and a `"`; it fails exactly when the text does not start that way |
| Properties.ParseProperties | VMF2MAP/Program.cs:620-639 | the property list exists exactly when the text holds a pair, and its keys are distinct |
| Properties.FirstRunNoneIff | VMF2MAP/Program.cs:622-638 | no run is found exactly when no position of the text starts a pair |
| Properties.FirstRunAtLeftmost | VMF2MAP/Program.cs:622-636 | the run found is the one starting at the leftmost pair, with the pairs that follow it |
| Properties.SameContentGivesSameLookups | VMF2MAP/Program.cs:644-662 | dictionaries that compare equal read the same value for every key |
| Properties.SameLookupsGiveSameContent | VMF2MAP/Program.cs:644-662 | dictionaries that read the same value for every key compare equal |
| Properties.SameContentIffSameLookups | VMF2MAP/Program.cs:644-662 | content equality holds exactly when every key reads the same in both |
| Text.Lower | VMF2MAP/Program.cs:335 | lower-casing keeps the length |
| Text.LowerIdempotent | VMF2MAP/Program.cs:335 | lower-casing twice is lower-casing once |
| Text.CollapseSpacesOnlySpace | VMF2MAP/Program.cs:538-542 | every whitespace character left after the replacement is a plain space |
| Text.CollapseLeavesSingleSpaces | VMF2MAP/Program.cs:538-542 | no two whitespace characters are adjacent after the replacement |
| Text.NonSpace | VMF2MAP/Program.cs:538-542 | the characters it keeps are none of them whitespace, and there are no more of them than in the input |
| Text.CollapseKeepsNonSpace | VMF2MAP/Program.cs:538-542 | the replacement keeps every non-whitespace character, in order, and adds none |
| Text.CollapseRun | VMF2MAP/Program.cs:538-542 | a maximal whitespace run becomes exactly one space |
| Text.CollapseAfterToken | VMF2MAP/Program.cs:538-542 | a prefix without whitespace is kept as it is |
| Text.SplitOnSpaceMeaning | VMF2MAP/Program.cs:542 | no piece contains a space, and joining the pieces with spaces gives back the string |
| Text.TrimStartMeaning | VMF2MAP/Program.cs:151 | the trimmed string is a suffix that does not start with a trimmed character, and everything removed is one |
| Text.TrimEndMeaning | VMF2MAP/Program.cs:151 | the trimmed string is a prefix that does not end with a trimmed character, and everything removed is one |
| Text.ReplaceCharConcat | VMF2MAP/Program.cs:234 | replacing a character distributes over concatenation |
| Text.PadParensIsPadEach | VMF2MAP/Program.cs:234 | the two chained replacements equal one pass that pads each parenthesis on its own |
| Text.NatToString | VMF2MAP/Program.cs:439 | the decimal text of a natural is a non-empty run of digits |
| Text.DecimalRoundTrip | VMF2MAP/Program.cs:439 | reading back the decimal text of a natural gives the natural |
| Text.NatToStringInjective | VMF2MAP/Program.cs:439 | distinct naturals have distinct decimal texts |
| Vectors.ComponentsOfJoin | VMF2MAP/Program.cs:541-542 | whitespace collapsing and splitting give back the tokens of space-separated tokens |
| Vectors.ParseVector3OfTokens | VMF2MAP/Program.cs:539-560 | fewer than three components give null; otherwise the vector of the first three components, or null when one of them does not parse |
| Vectors.LeadingSpaceRejected | VMF2MAP/Program.cs:541-557 | a string with leading whitespace yields an empty first component and is rejected |
| Vectors.KeepParsed | VMF2MAP/Program.cs:588-595 | only the matches that parse are kept, so there are at most as many vectors as matches |
| Vectors.ParseVector3Array | VMF2MAP/Program.cs:584-597 | the loop returns the parsed vectors of the number triples, in order, dropping those that do not parse |
| Vectors.PlaneVectors | VMF2MAP/Program.cs:582-597 | a plane `(x y z) (x y z) (x y z)` of numbers gives exactly its three points |
| Vectors.ParseAllMeaning | VMF2MAP/Program.cs:574-577 | the array exists exactly when every component parses, and holds each component's value in order |
| Vectors.ParseDoubleArray | VMF2MAP/Program.cs:561-580 | the loop returns one number per component, or throws when a component does not parse |
| Vectors.AxisOfEditorForm | VMF2MAP/Program.cs:28 | the axis pattern reads the four bracketed numbers and the scale of `[x y z shift] scale` |
| Vectors.AxisParsedFromEditorForm | VMF2MAP/Program.cs:281-300 | an axis written `[x y z shift] scale` gives its direction, shift and scale |
| Materials.RemapMaterial | VMF2MAP/Program.cs:331-370 | a name not starting with `tools/` is kept; a changed name comes from the table entry of its lower-cased form |
| Materials.RemapIsLookup | VMF2MAP/Program.cs:333-368 | the switch is a lookup of the lower-cased name in the tool table, defaulting to the name itself |
| Materials.KeyHasToolsPrefix | VMF2MAP/Program.cs:333-336 | every table entry is reached through the `tools/` prefix test |
| Materials.RemapIgnoresCase | VMF2MAP/Program.cs:335-336 | names that differ only in case are renamed alike |
| Materials.KeptToolsUnchanged | VMF2MAP/Program.cs:359-367 | `toolsblocklight`, `toolsskybox` and unknown tool names are kept as they are |
| Materials.RemapIdempotent | VMF2MAP/Program.cs:331-370 | renaming a renamed material changes nothing |
| Displacement.RowKeyFolded | VMF2MAP/Program.cs:177 | the key `row{N}` is already lower-case |
| Displacement.RowKeyInjective | VMF2MAP/Program.cs:177 | distinct row numbers give distinct keys |
| Displacement.RowKeySetSize | VMF2MAP/Program.cs:177 | the keys `row0` to `row{k-1}` are k distinct keys |
| Displacement.RowsBounded | VMF2MAP/Program.cs:176-182 | a dictionary can hold only as many consecutive row keys as it has entries, so the scan stops |
| Displacement.RowCount | VMF2MAP/Program.cs:176-182 | the scan stops at the first missing row key, with every earlier key present |
| Displacement.RowCountUnique | VMF2MAP/Program.cs:176-182 | that stopping point is the only one |
| Displacement.NormalRowsMeaning | VMF2MAP/Program.cs:175-183 | there is one normals row per row key, and row i holds the vectors of `row{i}` |
| Displacement.CollectSucceeds | VMF2MAP/Program.cs:187-195 | collecting rows succeeds exactly when every row parsed |
| Displacement.ScalarRowsMeaning | VMF2MAP/Program.cs:187-195 | the distances (or alphas) exist exactly when every row parses, with row i holding the numbers of `row{i}` |
| Displacement.ScanNormalRows | VMF2MAP/Program.cs:175-183 | the while loop collects exactly the normals rows |
| Displacement.ScanScalarRows | VMF2MAP/Program.cs:187-207 | the while loop collects exactly the distances (or alphas) rows, or throws |
| Patches.FloorMod | VMF2MAP/Program.cs:447-450 | the floored remainder lies in `[0, m)` and is the number itself there |
| Patches.FloorModPeriodic | VMF2MAP/Program.cs:447-450 | the floored remainder is periodic in its first argument |
| Patches.CornerIndices | VMF2MAP/Program.cs:447-450 | four corner indices are chosen, the third being the start index |
| Patches.CornerIndicesTable | VMF2MAP/Program.cs:447-450 | the corner indices for each start index 0 to 3 |
| Patches.CornerIndicesArePermutation | VMF2MAP/Program.cs:447-450 | for a start index of a quad the corners name each point exactly once |
| Patches.CornerIndicesConsecutive | VMF2MAP/Program.cs:446-450 | each corner follows the previous one around the quad |
| Patches.SelectCorners | VMF2MAP/Program.cs:441-450 | the corners exist exactly when every index is within the side's points, and they are those points |
| Patches.RotateKeepsElements | VMF2MAP/Program.cs:446-450 | a rotation of the points keeps every point |
| Patches.CornersOfQuad | VMF2MAP/Program.cs:446-450 | on a quad the corners are the points rotated so that the start point is third |
| Patches.CornersOfQuadPermute | VMF2MAP/Program.cs:446-450 | on a quad the four corners are the four points, each once |
| Patches.ReadSizeOfRuns | VMF2MAP/Program.cs:439 | two digit runs separated by a space read back as their values |
| Patches.SizeFieldRoundTrip | VMF2MAP/Program.cs:439 | the size header reads back as the row and column counts written |
| Patches.SquareGridCovered | VMF2MAP/Program.cs:460-473 | a square normals grid with distances of the same shape covers every cell the loops visit |
| Patches.CoveredNeedsTranspose | VMF2MAP/Program.cs:473 | the grid is indexed `[column][row]`, so it needs at least as many rows as columns are written, each at least as long as the row count |
| Patches.RowPoints | VMF2MAP/Program.cs:462-473 | a row of the grid has one point per column |
| Patches.RowTexels | VMF2MAP/Program.cs:475-481 | a row has one texture coordinate per point |
| Patches.RowOf | VMF2MAP/Program.cs:490-494 | a row read out of the array holds the array's cells of that row |
| Patches.FillRow | VMF2MAP/Program.cs:462-482 | filling one row succeeds exactly when that row's cells exist, fills it with their points and texture coordinates, and leaves the other rows as they were |
| Patches.FillGrid | VMF2MAP/Program.cs:443-483 | the grid is filled exactly when every visited cell exists, and then each cell holds its point and texture coordinates |
| Patches.RowsReadFilled | VMF2MAP/Program.cs:460-506 | the rows read back from a filled grid are the rows computed from the displacement |
| Patches.WriteRow | VMF2MAP/Program.cs:488-505 | one row is written as `\n(`, one cell per column, ` )` |
| Patches.WriteRows | VMF2MAP/Program.cs:486-506 | the row loop writes the rows of the arrays in order |
| Patches.Plan | VMF2MAP/Program.cs:433-450 | a patch is laid out exactly when the side has points, normals with at least one row, distances whenever those rows have cells, and a corner nearest the start position; its sizes and rows are those of the normals, and its distances those read, or none when there are no columns |
| Patches.SquarePatchWritten | VMF2MAP/Program.cs:436-513 | a side with four points, a square normals grid and distances of the same shape is always written, whatever the start position |
| Patches.WritePatch | VMF2MAP/Program.cs:436-513 | the patch loop body writes exactly `PatchText`: the header, the rows and the closing braces of the side's patch, or throws where `Plan` or the grid does |
| Patches.RowsWithoutColumns | VMF2MAP/Program.cs:486-506 | with no columns no cell is read, and every row is written as `( )` |
| Patches.ColumnlessPatchWritten | VMF2MAP/Program.cs:436-513 | a displacement whose normals rows have no cells is written as a header and empty rows, whether or not it has distances |
| Converter.ReadDispChild | VMF2MAP/Program.cs:162-208 | one sub-block step equals `DispChild`, whose effect over a whole loop `ConversionFacts.DispChildrenLastWins` and `ConversionFacts.DispChildrenFails` state |
| Converter.ReadDispChildren | VMF2MAP/Program.cs:161-209 | the sub-block loop equals `DispChildrenFrom`: it throws exactly when a sub-block does (`ConversionFacts.DispChildrenFails`), and otherwise each row kind holds the rows of its last block (`ConversionFacts.DispChildrenLastWins`) |
| Converter.ReadDispInfo | VMF2MAP/Program.cs:146-209 | equals `ParseDisp`, which `ConversionFacts.DispInfoRead` characterises: the start position minus the origin, the power, and the rows of the last `normals`, `distances` and `alphas` blocks, or a throw exactly when a key is missing or a value or row does not parse |
| Converter.ReadSideChild | VMF2MAP/Program.cs:140-215 | one sub-block step equals `SideChild`: a `dispinfo` sub-block, in any case, marks the side displaced and replaces its displacement by what it reads, or throws; any other sub-block is ignored |
| Converter.ReadSideDisp | VMF2MAP/Program.cs:134-218 | the side's sub-block loop equals `SideDispFrom`, which `ConversionFacts.SideDispFails` and `ConversionFacts.SideDispLastWins` characterise: it throws exactly when a `dispinfo` block does, and otherwise keeps the displacement of the last one |
| Converter.WriteFaceLine | VMF2MAP/Program.cs:375-405 | the face line is appended piece by piece |
| Converter.ReadFace | VMF2MAP/Program.cs:220-405 | a side's properties give its record and its face line, or throw |
| Converter.ReadSide | VMF2MAP/Program.cs:119-410 | one side block gives its record, face line and displacement mark, or throws |
| Converter.ReadSides | VMF2MAP/Program.cs:117-410 | the side loop appends each side's face line and record in order |
| Converter.CompleteSides | VMF2MAP/Program.cs:421-425 | every side is completed against the brush |
| Converter.WritePatches | VMF2MAP/Program.cs:431-516 | the patch loop writes the patch of every completed side that keeps a displacement |
| Converter.ConvertBrush | VMF2MAP/Program.cs:86-524 | one brush is written as its face text or, when displaced, as its patches |
| Converter.WriteProperties | VMF2MAP/Program.cs:71-75 | one property line per entry |
| Converter.ConvertBrushes | VMF2MAP/Program.cs:85-525 | the brush loop writes every brush of the entity in order |
| Converter.ConvertEntity | VMF2MAP/Program.cs:49-528 | one entity block is written, skipped or throws |
| Converter.ConvertAll | VMF2MAP/Program.cs:47-530 | the entity loop writes every entity in order, and throws when one throws |
| ConversionFacts.ConcatNoneIff | VMF2MAP/Program.cs:47-530 | a sequence of outputs fails exactly when one of them fails |
| ConversionFacts.ConcatOfEmpty | VMF2MAP/Program.cs:431-433 | outputs that are all empty concatenate to the empty text |
| ConversionFacts.EmitConcat | VMF2MAP/Program.cs:47-530 | an appending loop from any point equals the text so far followed by the concatenation of the rest |
| ConversionFacts.EmitAll | VMF2MAP/Program.cs:47-530 | an appending loop from the start equals the concatenation of all outputs |
| ConversionFacts.ConvertIsConcat | VMF2MAP/Program.cs:47-530 | the output file is the concatenation of the entities' outputs |
| ConversionFacts.ConvertFailsIff | VMF2MAP/Program.cs:47-530 | the conversion fails exactly when converting one of the entities throws |
| ConversionFacts.Written | VMF2MAP/Program.cs:54-58 | the filter keeps only `world` and `entity` blocks |
| ConversionFacts.OnlyWorldAndEntitiesWritten | VMF2MAP/Program.cs:54-58 | removing every block that is not `world` or `entity` does not change the output |
| ConversionFacts.WrittenConcat | VMF2MAP/Program.cs:54-58 | skipped blocks contribute nothing to the concatenation |
| ConversionFacts.PropsFromLines | VMF2MAP/Program.cs:71-75 | the property loop writes one `\t"key" "value"\n` line per entry, in order |
| ConversionFacts.EntityWritten | VMF2MAP/Program.cs:60-528 | a `world` or `entity` block with a `classname` is written as `{`, its property lines, its brushes' output and `}`, and fails exactly when a brush throws |
| ConversionFacts.EntityFails | VMF2MAP/Program.cs:54-69 | an entity without properties or without a `classname` throws; only `world` and `entity` blocks can throw; other blocks write nothing |
| ConversionFacts.DetailFlagText | VMF2MAP/Program.cs:403 | the detail flag is written as `134217728` |
| ConversionFacts.FaceLineDetail | VMF2MAP/Program.cs:401-405 | a detail face line is the plain line with ` 134217728 0 0` before its newline |
| ConversionFacts.FaceLineStart | VMF2MAP/Program.cs:222-234 | a face line starts with two tabs and the plane text |
| ConversionFacts.FacePlane | VMF2MAP/Program.cs:229-271 | a plane that does not give three points is echoed with padded parentheses, and the side then has no points and no displacement; a plane of three points gives the side those points minus the origin, and its displacement |
| ConversionFacts.SideDispFound | VMF2MAP/Program.cs:134-218 | the sub-block loop marks a displacement exactly when some sub-block is a `dispinfo`, and keeps one only then |
| ConversionFacts.SideDisplaced | VMF2MAP/Program.cs:142-144 | a side is displaced exactly when it has a `dispinfo` sub-block, and keeps a displacement only with three plane points |
| ConversionFacts.LastOfKind | VMF2MAP/Program.cs:136-217 | the index found is of a block of the given type with none after it, and none is found only when no block from there on has that type |
| ConversionFacts.DispChildrenFails | VMF2MAP/Program.cs:161-209 | the sub-block loop of a `dispinfo` throws exactly when one of its `normals`, `distances` or `alphas` blocks has no property run or a row that does not parse |
| ConversionFacts.DispChildrenLastWins | VMF2MAP/Program.cs:161-209 | when the loop reads, the start position and power are kept and each of `normals`, `distances` and `alphas` holds the rows of the last block of its type, or what it held before |
| ConversionFacts.DispInfoRead | VMF2MAP/Program.cs:146-209 | a `dispinfo` reads exactly when `startposition` and `power` are present and parse and no sub-block throws; it then holds the start position minus the origin, the power and the rows of the last block of each type |
| ConversionFacts.SideDispFails | VMF2MAP/Program.cs:134-218 | the side's sub-block loop throws exactly when one of its `dispinfo` blocks does |
| ConversionFacts.SideDispLastWins | VMF2MAP/Program.cs:134-218 | when the side's sub-block loop reads, it keeps the displacement of the last `dispinfo` block, marked found, or none when there is no such block |
| ConversionFacts.SideKeepsLastDispInfo | VMF2MAP/Program.cs:134-248 | a side with a three-point plane keeps the displacement of its last `dispinfo` block, and none when it has none |
| ConversionFacts.SidesFromText | VMF2MAP/Program.cs:117-410 | the side loop succeeds exactly when every side reads, and then appends their face lines in order |
| ConversionFacts.SidesFromSides | VMF2MAP/Program.cs:372-373 | the side loop keeps one record per side in order, and marks the brush displaced exactly when one of its sides is |
| ConversionFacts.BrushSidesDisplaced | VMF2MAP/Program.cs:142-144 | a brush is marked displaced exactly when one of its sides has a `dispinfo` sub-block |
| ConversionFacts.CompleteFromSides | VMF2MAP/Program.cs:421-425 | completion succeeds exactly when every side completes, and replaces only each side's points, in order |
| ConversionFacts.CompletedSidesShape | VMF2MAP/Program.cs:418-428 | each completed side is the side as read with its points replaced by what `Side.completeSide` gives for it against all the brush's sides, nothing else changed, one per side in order |
| ConversionFacts.SidesReadInOrder | VMF2MAP/Program.cs:118-226 | the side loop keeps one side per sub-block, in order, each as read |
| ConversionFacts.CompletedSidesFail | VMF2MAP/Program.cs:418-428 | completing the sides fails exactly when reading a side throws or `Side.completeSide` throws on one |
| ConversionFacts.BrushUndisplaced | VMF2MAP/Program.cs:521-524 | a brush without displacement is written as `\t{`, its face lines in order, `\t}` |
| ConversionFacts.BrushDisplaced | VMF2MAP/Program.cs:415-524 | a brush with a displaced side drops its face text and is written as the patches of its completed sides alone |
| ConversionFacts.DisplacedWithoutPatches | VMF2MAP/Program.cs:431-433 | a displaced brush none of whose sides keeps a displacement writes nothing |
| Braces.Block | VMF2MAP/Program.cs:23-26 | a block found at an opening brace ends after it, within the text |
| Braces.Items | VMF2MAP/Program.cs:23-26 | the contents of a block, once accepted, end after where they start |
| Braces.DepthSplit | VMF2MAP/Program.cs:23-26 | nesting depth adds up over adjacent stretches |
| Braces.ItemsSound | VMF2MAP/Program.cs:23-26 | the contents scan accepts only text that ends at its first unmatched closing brace |
| Braces.ItemsComplete | VMF2MAP/Program.cs:23-26 | the contents scan accepts every text that ends at its first unmatched closing brace |
| Braces.BlockIffBalanced | VMF2MAP/Program.cs:23-26 | the recogniser accepts a block from an opening brace to a point exactly when that stretch is balanced |

## Left out

- Reading the `.vmf` file and writing the `.map` and `.ditched` files (lines 35-40, 532-533) are left out. The model's input is the block tree and its output is the `.map` text.
- Console and trace logging, and the `ditched` text, are left out. They do not affect the `.map` output.
- Splitting the file into blocks with the PCRE patterns at lines 23-26 is left out. The model takes the block tree as given, with each block's type name, property text and sub-blocks. `Braces` models only the balanced-brace shape those patterns share, not the type-name, comment and whitespace parts around it.
- Floating-point arithmetic is taken as parameters, with no rounding modelled:
  - `Vector3` subtraction;
  - the grid points and texture coordinates (lines 460-483);
  - `ToString("0.###")` and default number formatting;
  - `float.TryParse`, `float.Parse`, `double.Parse` and `int.Parse`.
- `Side.completeSide` and `Vector3.closestIndex` are parameters. Their code is not part of this model.
- `MathExtensions.FloorMod` is given by its mathematical contract (the floored remainder).
- `EntityProperties.GetHashCode` (lines 664-687), `ToString`, `String` and `INotifyPropertyChanged` are left out. The conversion never uses them.
- Case-insensitive comparison and `ToLower` are modelled for ASCII letters only. Culture-specific case folding is not modelled.
- Properties.EntityProperties: the dictionary is modelled as a sequence of entries in insertion order. .NET does not promise that `Dictionary` enumerates in that order; the model assumes it does for entries that were never removed.
- The `alphas` rows are read and kept but not used, as in the code.
- The `power` field is read and kept but not used, as in the code.
- The regular-expression whitespace class `\s` is modelled as the six ASCII whitespace characters.
- The regular-expression digit class `\d` (lines 28 and 582) is modelled as the ASCII digits `0`-`9`. .NET also matches every other Unicode decimal digit, so for `"٣ 1 2 3"` the code matches `٣ 1 2`, which does not parse and is dropped, while the model skips `٣` and reads `1 2 3`.
- `Trim()` at line 151 removes every character `char.IsWhiteSpace` accepts. The model removes only the six ASCII whitespace characters.
- ConversionFacts.CompletedSidesShape: assumes `Side.completeSide` replaces only a side's corner points and changes nothing else of the side. Its code is not part of this model, so the model has it return the new points.
