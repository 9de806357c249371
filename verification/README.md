# Seabass: the hard parts, modelled and proved

Seabass reads and rewrites DJ libraries on USB sticks (rekordbox and Engine DJ). This project
models the parts of it whose correctness can not be seen from one function body, and proves what
they promise, for every input or every run. `dafny verify dfyconfig.toml` checks all of it.

## What is modelled

**The path key** decides which file is which before anything is deleted. A path is unpadded, its
separators are made alike, it is normalised lexically, combining marks are composed, and capitals
are lowercased, over raw bytes that may not be UTF-8.

- `Utf8`: bytes decode to items, a code point for every sequence the scanners accept and a raw byte
  for every byte they copy through. `composeUtf8` and `lowerUtf8` carry the same scanner, so it is
  modelled once (`ScanSequence`). It accepts over-long forms, surrogates and values up to 0x1FFFFF;
  `Scalar` is that range. Masks and shifts are written as the arithmetic they stand for.
- `Composition`, `CaseFolding`, `Folding`: each byte loop refines encode(transform(decode(bytes))).
  Composition is proved over any table that is `WellFormed` (sorted by unique base and mark, no mark
  ever a base or a composed character, nothing the path code cuts or trims at). `NfcTable` holds the
  928 rows of the shipped table and proves them well formed, so every theorem holds of it.
- `LexicalPath`: normalisation, set against what walking a path means.
- `PathKey`, `KeySpelling`, `KeyContainment`, `KeyIdempotence`, `KeyExamples`: the key as a whole.

The source says of both scanners that undecodable bytes are left untouched. That is true of the
sequences the scanner rejects. An over-long form is accepted and written back shorter, so some
theorems ask for shortest-form input; the ones that do not hold of every byte string.

**The beat grid** (`BeatGrid`) replaces a walk over up to 2^32 beats by closed bounds. The naive walk
is the specification. Times are reals, with the values that are not finite kept as a case of their own.

**The one progress bar** (`PhasedBar`) is a class over a reporter with a ghost trace of all it is
told; each method is proved against a transition function, and the theorems are about every call
sequence of that function.

**The import probe** keeps records and case lists as text (`FieldText`, `Records`, `RecordFile`,
`CaseFile`), compares two records (`Comparer`, `Comparing`), orders playlists out of possibly
damaged links (`PlaylistOrder`) and pairs catalog rows (`TrackPairing`). Strings there are
`seq<char>`, one character a byte.

**Two smaller algorithms**: polygon clipping and curve flattening over the reals (`Clipping`), and the
order-independent catalog digest (`CatalogDigest`). `Sequences`, `Arithmetic` and `Options` hold what
several modules need.

## Where a promise holds only under a condition

- A key is its own key only under two conditions, both needed: `KeyIdempotence.KeyIsItsOwnKey` gives
  them exactly, `KeyExamples` a path that fails each.
- Containment of keys is containment of components unless a path hides an over-long separator in one
  (`KeyExamples.OverlongSlash`). On all byte strings it is exact on the keys themselves
  (`KeyContainment.AtOrUnderByKeys`).
- A jump back undoes a beat jump exactly when the jump fits its arrival beat, or runs off the end of
  the grid over beats that average 625 ms (`BeatGrid.SkipUndoesItself`, and `BeatGrid.SkipThereAndBack`
  of the position returned); `BeatGrid.LongBeatIntoShort` is a jump that is not undone.
- A record whose section begins with `#` loses those entries when read back
  (`RecordFile.RecordSurvives`), a case whose id another case has first loses its items to that one
  (`CaseFile.CasesSurvive`), and a set survives joining only if no element holds a tab and the empty
  element, if there is one, is not lost (`FieldText.SetSurvives`). Each has an input that fails:
  `RecordFile.HashSectionIsLost`, `CaseFile.SecondLosesItsItems`, `FieldText.SetsThatDoNotSurvive`.
- The comparison loses no change only when the cases cover the tracks they are about
  (`Comparing.LosesNothingIff`); `Comparing.SecondTrackIsNotCovered` is a case list that does not.
- A playlist's full name is the whole path from the top exactly when the playlist has a title or no
  parents (`PlaylistOrder.FullNameIsThePath`); an untitled playlist under "Sets" is named "Sets", and
  not "Sets/" (`PlaylistOrder.UntitledTakesParentsName`). Names tell playlists' titles apart where no
  title holds a slash (`PlaylistOrder.NamesTellTitles`, `PlaylistOrder.SlashedTitleSharesName`).
- Pairing keeps two rows apart unless a file's path reads like another row's id
  (`TrackPairing.RowsAreNeverMerged`, `TrackPairing.FilePosesAsId`, `TrackPairing.FallbackPosesAsId`).
- Read order changes the digest exactly when tied tracks or tied cues print differently
  (`CatalogDigest.OrderMattersByTies`, `CatalogDigest.TitlesOfOneName`); and it tells libraries apart
  where no word holds a tab (`CatalogDigest.DigestIsOfContents`, `CatalogDigest.TabsConfuse`).

## Model

| member | source | states |
|---|---|---|
| `Utf8.ScanSequence` | src/application/path_key.cpp:163-203 | the scanner accepts exactly the complete sequences and reads the value its bytes carry |
| `Utf8.FirstMeans` | src/application/path_key.cpp:163-203 | by ranges of bytes: which sequences are read, how many bytes each takes and what value they spell; any other byte is raw |
| `Utf8.FirstOfEncoding` | src/application/path_key.cpp:91-108 | every code point, surrogates included, is read back from its encoding, whatever follows it |
| `Utf8.DecodeEncode` | src/application/path_key.cpp:91-108 | item sequences whose raw bytes are rejected where they stand survive encoding and decoding |
| `Utf8.DecodeIsStable` | src/application/path_key.cpp:163-186 | on every byte string, a byte the scanner rejects is rejected again in what it produced |
| `Utf8.DecodeAppend` | src/application/path_key.cpp:163-203 | a string decodes in halves wherever the second does not begin with a continuation byte |
| `Utf8.EncodingOfFirst` | src/application/path_key.cpp:91-108 | one sequence is never written back longer, and is written back the same if it is as long |
| `Utf8.ShortestFormByLength` | src/application/path_key.cpp:91-108 | re-encoding any bytes never lengthens them, and keeps the length of shortest-form bytes only |
| `Composition.ComposePair` | src/application/path_key.cpp:136-148 | the binary search returns the row of a base and mark, or 0 exactly when there is none |
| `Composition.ComposeUtf8` | src/application/path_key.cpp:150-216 | the byte loop with its pending code point computes encode(compose(decode(bytes))) |
| `Composition.ComposedBytesDecode` | src/application/path_key.cpp:150-216 | the output decodes to the composed items, is in shortest form, and holds every rejected byte in order |
| `Composition.ComposeKeepsRawBytes` | src/application/path_key.cpp:163-186 | rejected bytes are neither changed, reordered, added nor dropped, whatever is pending |
| `Composition.ComposeSettles` | src/application/path_key.cpp:150-216 | no two neighbours of a composed output compose |
| `Composition.ComposeFixpoints` | src/application/path_key.cpp:150-216 | composing leaves an item sequence alone exactly when no two of its neighbours compose |
| `Composition.ComposeIdempotent` | src/application/path_key.cpp:150-216 | composing twice is composing once, on every byte string, malformed ones included |
| `Composition.ComposeSpelledOut` | src/application/path_key.cpp:150-216 | spelling out one composed character anywhere in any bytes leaves the composed bytes the same |
| `Composition.TrailKeepsComposed` | src/application/path_key.cpp:150-216 | and so does any number of spellings out and their reverse, to any depth |
| `Composition.ComposeTrail` | src/application/path_key.cpp:150-216 | one pass is itself such a trail: it only ever replaces a base and mark by what they compose to |
| `Composition.ComposeDecidesSpelling` | src/application/path_key.cpp:150-216 | two strings compose to the same bytes exactly when such a trail links them, over-long forms shortened |
| `Composition.ComposeAround` | src/application/path_key.cpp:150-216 | nothing composes across a separator, dot or pad character: each side composes on its own |
| `Composition.ComposeNeverLengthens` | src/application/path_key.cpp:150-216 | composing never adds bytes |
| `CaseFolding.LowerUtf8` | src/application/path_key.cpp:218-264 | the byte loop computes encode(lower(decode(bytes))) |
| `CaseFolding.LowerCodePointFacts` | src/application/path_key.cpp:33-89 | no lowercased code point is a capital; lowercasing keeps the encoded width, leaves the other ASCII code points alone and none but ASCII capitals lands in ASCII |
| `CaseFolding.CapitalsAre` | src/application/path_key.cpp:33-89 | the code points that are moved are exactly the listed ranges, by parity where the cases take turns |
| `CaseFolding.AsciiFollows` | src/application/path_key.cpp:35-38 | A to Z go in order onto a to z |
| `CaseFolding.LatinFollows` | src/application/path_key.cpp:39-59 | the Latin-1 capitals go in order onto their small letters, and U+0178 to U+00FF |
| `CaseFolding.LatinExtendedFollows` | src/application/path_key.cpp:44-53 | of each pair in U+0100 to U+0148 the capital goes to the small letter |
| `CaseFolding.LatinExtendedOnFollows` | src/application/path_key.cpp:54-62 | and of each pair in U+014A to U+017E |
| `CaseFolding.AccentedGreekFollows` | src/application/path_key.cpp:67-80 | the accented Greek capitals up to U+038A go to their small letters |
| `CaseFolding.AccentedGreekOnFollows` | src/application/path_key.cpp:67-80 | and those from U+038C |
| `CaseFolding.GreekFollows` | src/application/path_key.cpp:63-66 | the Greek capitals go in order onto the small ones |
| `CaseFolding.CyrillicFollows` | src/application/path_key.cpp:81-88 | the Cyrillic capitals go in order onto the small ones, in both blocks |
| `CaseFolding.CapitalsStayApart` | src/application/path_key.cpp:33-89 | no two capitals share a small letter |
| `CaseFolding.LoweredBytesDecode` | src/application/path_key.cpp:218-264 | the output decodes to the lowercased items and is in shortest form |
| `CaseFolding.LowerIdempotent` | src/application/path_key.cpp:218-264 | lowercasing twice is lowercasing once, on every byte string |
| `CaseFolding.LowerKeepsLength` | src/application/path_key.cpp:218-264 | lowercasing keeps the byte length exactly of shortest-form bytes |
| `LexicalPath.LexicallyNormalizedPath` | src/application/path_key.cpp:280-318 | splitting, pushing and writing out compute the joined kept components |
| `LexicalPath.NormalIsCanonical` | src/application/path_key.cpp:288-304 | no empty or `.` component is kept, `..` only in front, and in an absolute path not at all |
| `LexicalPath.OutputIsCollapsed` | src/application/path_key.cpp:280-318 | cut at its slashes, the output has no `.` component, no empty one but for the root's and the empty path's, no `..` after a name, and none in an absolute path |
| `LexicalPath.LexicalSkips` | src/application/path_key.cpp:288-289 | an empty or `.` component between two separators changes nothing, whatever stands around it |
| `LexicalPath.LexicalPops` | src/application/path_key.cpp:290-292 | a name and the `..` after it leave no trace, whatever stands around them |
| `LexicalPath.RootIsItsOwnParent` | src/application/path_key.cpp:290-298 | a `..` right after the root is dropped |
| `LexicalPath.NormalClimb` | src/application/path_key.cpp:288-304 | a relative path keeps as many leading `..` as its walk climbs above its start at the highest |
| `LexicalPath.LexicalKeeps` | src/application/path_key.cpp:280-318 | splitting the output again gives the kept components, canonical and free of separators |
| `LexicalPath.LexicalIdempotent` | src/application/path_key.cpp:280-318 | normalising twice is normalising once |
| `LexicalPath.LexicalKeepsMeaning` | src/application/path_key.cpp:280-318 | from every start directory, walking the output ends where walking the input does |
| `LexicalPath.LexicalDecidesMeaning` | src/application/path_key.cpp:280-318 | two paths normalise alike exactly when they lead to the same place from every start directory |
| `Folding.FoldAround` | src/application/path_key.cpp:349-349 | composing and lowercasing work piece by piece around a structural character, on any bytes |
| `Folding.FoldKeepsStructural` | src/application/path_key.cpp:349-349 | separators, dots and pads neither come nor go |
| `Folding.FoldKeepsEnd` | src/application/path_key.cpp:349-349 | a folded name ends in a structural character exactly when the name does |
| `Folding.FoldKeepsKind` | src/application/path_key.cpp:349-349 | folding makes no component `.`, `..` or empty, and none of these anything else |
| `Folding.FoldJoin` | src/application/path_key.cpp:349-349 | folding a joined path is joining its folded components |
| `PathKey.NormalizedPathKey` | src/application/path_key.cpp:322-350 | the trimming loops and the three steps compute the key of every byte string, empty and all-pad ones included |
| `PathKey.TrimPadCuts` | src/application/path_key.cpp:336-339 | spaces, tabs and NULs are cut from the end, all of them and nothing else |
| `PathKey.StripSeparatorsCuts` | src/application/path_key.cpp:340-344 | slashes and backslashes are cut from the end, all but a first byte and nothing else |
| `PathKey.KeyByComponents` | src/application/path_key.cpp:322-350 | the key is the root and the folded kept components joined; on every byte string |
| `PathKey.SameMeaningSameKey` | src/application/path_key.cpp:322-350 | paths that lead to the same place from every directory (doubled separators, `.`, `x/..`) share a key |
| `PathKey.KeyIgnoresPadding` | src/application/path_key.cpp:327-339 | trailing spaces, tabs and NULs never count |
| `PathKey.KeyIgnoresTrailingSeparators` | src/application/path_key.cpp:340-344 | trailing separators of either kind do not count on an unpadded path |
| `PathKey.KeyIgnoresSeparatorKind` | src/application/path_key.cpp:348-348 | writing a path with slashes or backslashes gives one key |
| `KeySpelling.KeySpelledOut` | src/application/path_key.cpp:322-350 | spelling out one composed character leaves the whole key the same |
| `KeySpelling.SameSpellingSameKey` | src/application/path_key.cpp:322-350 | every spelling of a path, to any depth, has one key |
| `KeyContainment.UnderMeans` | src/application/stick_path_match.hpp:25-47 | what begins with the root is under it exactly when nothing follows or a separator stands between |
| `KeyContainment.UnderIsAPartialOrder` | src/application/stick_path_match.hpp:25-47 | being under is reflexive, antisymmetric and transitive on non-empty strings |
| `KeyContainment.SamePathByComponents` | src/application/path_key.cpp:357-363 | where neither hides an over-long separator, two paths are the same exactly when both are absolute or neither and their folded components agree |
| `KeyContainment.AtOrUnderByComponents` | src/application/path_key.cpp:365-371 | where neither hides an over-long separator, a path is at or under a root exactly when the root's folded components begin the path's, so no sibling is |
| `KeyContainment.ShortestHidesNoSeparator` | src/application/path_key.cpp:280-318 | a path in shortest form hides none |
| `KeyContainment.AtOrUnderByDirectory` | src/application/path_key.cpp:365-371 | for absolute paths that is: the directory the root leads to begins the one the path leads to |
| `KeyContainment.AtOrUnderByKeys` | src/application/path_key.cpp:365-371 | on every byte string: exactly when the root's key begins the path's and so do its components, cut at either separator |
| `KeyExamples.OverlongSlash` | src/application/path_key.cpp:280-350 | with any table, an over-long slash puts a path of one component under a root that component is not |
| `KeyIdempotence.KeyIsItsOwnKey` | src/application/path_key.cpp:322-350 | on every byte string, exactly when the key of a key is the key: cleaning leaves the shortened normalised path alone, and no capital keeps two neighbours of the composed path from composing |
| `KeyIdempotence.ShortestKeyIsItsOwnKey` | src/application/path_key.cpp:322-350 | in shortest form: exactly when the normalised path ends in no pad and no capital keeps two neighbours of the composed path from composing |
| `NfcTable.TableIsWellFormed` | src/application/nfc_compositions.inc:13-940 | the shipped table meets everything the theorems ask of a table |
| `KeyExamples.PaddedFolder` | src/application/path_key.cpp:322-350 | with any table, the key of `a /` is not its own key |
| `KeyExamples.ShippedTableUnderlines` | src/application/path_key.cpp:322-350 | with the shipped table, neither is the key of H followed by U+0331 |
| `BeatGrid.BeatInBarCycles` | src/domain/beat_grid.cpp:61-61 | the truncating remainder still counts 1 to 4 without a break through negative indices |
| `BeatGrid.ClipSpan` | src/domain/beat_grid.cpp:46-55 | the loop bounds are the ceil and floor bounds of the span |
| `BeatGrid.BoundsAreExact` | src/domain/beat_grid.cpp:52-55 | those bounds name exactly the steps of the span whose beats fall inside the track |
| `BeatGrid.NaiveStepsAreARun` | src/domain/beat_grid.cpp:52-62 | walking every step and filtering gives the unbroken run the bounds name |
| `BeatGrid.WalkSpan` | src/domain/beat_grid.cpp:56-62 | a span is appended whole, or found to take the total past the limit, which never underflows |
| `BeatGrid.BeatsOfPins` | src/domain/beat_grid.cpp:30-64 | the clipped walk returns one beat for each the naive walk finds, at its time and with its index counted by fours as its number in the bar, or nothing if there are over 100000 |
| `BeatGrid.BeatsLieOnSpans` | src/domain/beat_grid.cpp:31-63 | what the naive walk finds: exactly the grid indices of accepted spans, at least 100 ms a beat, each on the straight line between its two pins and inside the track, the closing index only of the last span |
| `BeatGrid.BeatsFromMarkers` | src/domain/beat_grid.cpp:21-65 | dropping non-finite markers, sorting and walking give that, times and bar numbers included, for some order the sort may leave |
| `BeatGrid.MarkerOrderDoesNotMatter` | src/domain/beat_grid.cpp:24-28 | with every index given once, the order the markers come in changes nothing |
| `BeatGrid.BeatsRise` | src/domain/beat_grid.cpp:31-63 | every beat is inside the track, each grid index has one at most, and times rise where the markers' do not fall |
| `BeatGrid.BeatsInOrder` | src/domain/beat_grid.cpp:67-78 | the loop drops exactly what is not finite, negative, or not after the last beat kept |
| `BeatGrid.InOrderFixpoints` | src/domain/beat_grid.cpp:67-78 | a list is kept as it is exactly when it is already finite, not negative and strictly increasing |
| `BeatGrid.InOrderDropsOnly` | src/domain/beat_grid.cpp:67-78 | each beat is kept or dropped by the last one kept before it, and what is kept stays kept |
| `BeatGrid.MarkersKeepTime` | src/domain/beat_grid.cpp:21-78 | a sound file's beats need nothing dropped |
| `BeatGrid.UpperBound` | src/domain/beat_grid.cpp:85-85 | the binary search finds the first beat after a position |
| `BeatGrid.PositionAfterSkippingBeats` | src/domain/beat_grid.cpp:80-94 | the stepwise target is the clamped jump within the track's bounds |
| `BeatGrid.SkipStaysInside` | src/domain/beat_grid.cpp:90-93 | never negative, and at most duration - 1 for a duration of at least 1 |
| `BeatGrid.SkipIsNearest` | src/domain/beat_grid.cpp:90-93 | of all positions inside the track, the one returned is nearest to where the jump would land |
| `BeatGrid.JumpLands` | src/domain/beat_grid.cpp:84-89 | a jump from inside a beat lands as far into the beat it reaches, or into the first or the last where it would pass them |
| `BeatGrid.SkipKeepsPhase` | src/domain/beat_grid.cpp:84-89 | an unclamped jump lands as far into its arrival beat as it left its own |
| `BeatGrid.SkipUndoesItself` | src/domain/beat_grid.cpp:80-89 | jumping back returns to the start exactly when the jump fits its arrival beat, or runs off the end over beats averaging 625 ms |
| `BeatGrid.SkipThereAndBack` | src/domain/beat_grid.cpp:80-94 | of the position returned, from inside the track and where its bounds do not bind the jump: the same condition and no other |
| `BeatGrid.LongBeatIntoShort` | src/domain/beat_grid.cpp:80-94 | a jump from late in a long beat into a short one is not undone |
| `PhasedBar.PhasedProgress.constructor` | src/application/phased_progress.cpp:12-23 | announces a counted operation if asked, and ticks to where it starts |
| `PhasedBar.PhasedProgress.Start` | src/application/phased_progress.cpp:30-42 | ends the stretch before it, names the new one and never pulls the bar back |
| `PhasedBar.PhasedProgress.Tick` | src/application/phased_progress.cpp:44-55 | on a counted bar in a stretch of n > 0, moves to the stretch's start plus min(k, n) and reports it; passes the tick on when nothing was planned |
| `PhasedBar.PhasedProgress.Finish` | src/application/phased_progress.cpp:57-60 | ends the stretch and tells the reporter no finish |
| `PhasedBar.PhasedProgress.Done` | src/application/phased_progress.cpp:72-84 | ends everything once: to the plan's end if this part ends the operation, then one finish |
| `PhasedBar.PhasedProgress.EndStretch` | src/application/phased_progress.cpp:86-96 | moves the bar by the stretch's count, or by 1 where it had none |
| `PhasedBar.PhasedProgress.Report` | src/application/phased_progress.cpp:98-111 | tells the reporter a position only forward and only up to the plan |
| `PhasedBar.TicksClimbWithinPlan` | src/application/phased_progress.cpp:12-111 | over every call sequence, forwarded ticks strictly increase and never pass the plan |
| `PhasedBar.AnnouncedAndFinishedOnce` | src/application/phased_progress.cpp:12-111 | start goes out first and once if announcing and never otherwise; finish once, however often done is called |
| `PhasedBar.WordsGoOut` | src/application/phased_progress.cpp:12-84 | ticks aside, the reporter is told the announcement, then every label, warning and the one finish, in the order of the calls |
| `PhasedBar.UncountedPassesThrough` | src/application/phased_progress.cpp:30-84 | without a plan, every call sequence is passed through as it is, stretch ends aside |
| `PhasedBar.PositionAddsUp` | src/application/phased_progress.cpp:30-96 | between stretches the position is the start plus max(1, n) for every stretch so far |
| `PhasedBar.TickMovesTheBar` | src/application/phased_progress.cpp:30-55 | over every call sequence: in a stretch of n the position is the start plus max(1, m) for each stretch before it, or the plan and what came after it once the ending part is done, plus min(k, n) for its last tick k |
| `PhasedBar.EndMovesTheBar` | src/application/phased_progress.cpp:57-96 | after a finish or the first done the position is where all stretches so far end, and ticks outside a stretch do not move it |
| `PhasedBar.LastTickIsTheFurthest` | src/application/phased_progress.cpp:12-111 | over every call sequence, the last tick forwarded is the furthest position after any of the calls, up to the plan |
| `PhasedBar.StartIsNamedLast` | src/application/phased_progress.cpp:36-41 | a start sends the last stretch's end before the new one's label, and nothing after it |
| `PhasedBar.LastTickIsThePlan` | src/application/phased_progress.cpp:72-84 | once the ending part is done, the last tick sent is the plan, whatever was called around it |
| `PhasedBar.PartsShowOneBar` | src/application/phased_progress.cpp:12-111 | chained parts show what one bar given all their calls shows, finishes and repeated ticks aside |
| `FieldText.EscapeField` | tools/engine_import_probe_compare.hpp:103-126 | the loop escapes character by character |
| `FieldText.EscapeHidesBreaks` | tools/engine_import_probe_compare.hpp:103-126 | an escaped field holds no tab, newline or return |
| `FieldText.UnescapeField` | tools/engine_import_probe_compare.hpp:128-141 | the loop reads pairs after a backslash, and a last backslash as itself |
| `FieldText.UnescapeEscape` | tools/engine_import_probe_compare.hpp:103-141 | unescaping undoes escaping on every field |
| `FieldText.SplitLine` | tools/engine_import_probe_compare.hpp:144-158 | the loop cuts at raw tabs and unescapes each part |
| `FieldText.FieldsOfLine` | tools/engine_import_probe_compare.hpp:103-158 | a line of one or more fields gives them back, whatever tabs, newlines, returns and backslashes they hold |
| `FieldText.JoinSet` | tools/engine_import_probe_compare.hpp:160-170 | the loop puts a separator wherever something is already written |
| `FieldText.SplitSet` | tools/engine_import_probe_compare.hpp:172-189 | the loop gives the set of the parts, none for the empty string |
| `FieldText.SetSurvives` | tools/engine_import_probe_compare.hpp:160-189 | joining and splitting gives the set back exactly when no element holds a tab and no empty element is lost |
| `FieldText.SetsThatDoNotSurvive` | tools/engine_import_probe_compare.hpp:160-189 | the empty element alone is lost, and an element with a tab comes back as two |
| `Records.Record.Set` | tools/engine_import_probe_compare.hpp:61-64 | changes the one key and keeps the rest and the order |
| `Records.Record.Get` | tools/engine_import_probe_compare.hpp:66-74 | finds the key's value, or none exactly when there is none |
| `Records.Record.Entities` | tools/engine_import_probe_compare.hpp:77-86 | the entities of a section, all of them |
| `Records.Record.Fields` | tools/engine_import_probe_compare.hpp:89-100 | the range scan over the sorted entries returns what filtering all of them would |
| `Records.ScanIsFilter` | tools/engine_import_probe_compare.hpp:92-98 | the scan's start and stop leave out no entry of the entity |
| `Records.BeforeIsByFirstDifference` | tools/engine_import_probe_compare.hpp:55-59 | keys sort by the first character in which they differ, a shorter one before what it begins |
| `RecordFile.WriteRecord` | tools/engine_import_probe_compare.hpp:191-198 | the header and one escaped line for each entry, in order |
| `RecordFile.ReadRecord` | tools/engine_import_probe_compare.hpp:200-226 | reads any text: what is loaded, and which line stopped it with how many fields |
| `RecordFile.ReadBack` | tools/engine_import_probe_compare.hpp:191-226 | what was written reads back without error as the entries whose section does not begin with `#` |
| `RecordFile.HashSectionIsLost` | tools/engine_import_probe_compare.hpp:212-214 | a record of one entry in section `#` reads back empty |
| `RecordFile.RecordSurvives` | tools/engine_import_probe_compare.hpp:191-226 | a record survives exactly when no section of it begins with `#` |
| `RecordFile.ContentsDecideText` | tools/engine_import_probe_compare.hpp:191-198 | records with the same contents have the same entries in the same order |
| `CaseFile.WriteCases` | tools/engine_import_probe_compare.hpp:276-291 | the three header lines, then each case and its watch lines |
| `CaseFile.ReadCases` | tools/engine_import_probe_compare.hpp:293-326 | reads any text: the cases, and the unknown id or unreadable line that stopped it |
| `CaseFile.ReadBack` | tools/engine_import_probe_compare.hpp:276-326 | every case list reads back without error, each case's items filed under the first case of its id |
| `CaseFile.CasesSurvive` | tools/engine_import_probe_compare.hpp:276-326 | a case list survives exactly when every case with items is the first of its id |
| `CaseFile.DistinctIdsSurvive` | tools/engine_import_probe_compare.hpp:276-326 | so a list with distinct ids survives |
| `CaseFile.SecondLosesItsItems` | tools/engine_import_probe_compare.hpp:309-317 | of two cases of one id, the second's item comes back with the first |
| `Comparer.ClassifyMeans` | tools/engine_import_probe_compare.hpp:351-377 | kept exactly when nothing changed, added or deleted exactly when one side is missing, merged exactly when a changed set is now the union of both sides and not the rekordbox side alone, overwritten otherwise |
| `Comparer.TookIn` | tools/engine_import_probe_compare.hpp:363-374 | a set of one element that took in the other side's one is merged |
| `Comparer.FindItemValue` | tools/engine_import_probe_compare.hpp:429-439 | an item's value, or for a member item whether the element is in the set |
| `Comparer.CompareItem` | tools/engine_import_probe_compare.hpp:519-529 | an item's values on both sides and the verdict on them |
| `Comparer.SidesOf` | tools/engine_import_probe_compare.hpp:519-529 | which record and section each side is read from, and merged exactly by those sides |
| `Comparer.ValueOfItem` | tools/engine_import_probe_compare.hpp:429-439 | a value or set item is the field itself, a member item whether the set holds the element |
| `Comparer.DifferingFields` | tools/engine_import_probe_compare.hpp:533-554 | exactly the fields that differ and are not watched, in order, with what they were and are |
| `Comparer.CompareCase` | tools/engine_import_probe_compare.hpp:508-555 | every item's outcome, and what also changed on the first item's track |
| `Comparing.CompareCases` | tools/engine_import_probe_compare.hpp:505-562 | the counts per verdict and of cases not planted, and the tracks the cases are about |
| `Comparing.CompareTracks` | tools/engine_import_probe_compare.hpp:659-701 | tracks added and removed, and for each field the number of other tracks that differ in it |
| `Comparing.CompareRecords` | tools/engine_import_probe_compare.hpp:502-721 | the case loop and the track loop together: every case's outcome, the counts and the tracks outside the cases |
| `Comparing.MergesAreReported` | tools/engine_import_probe_compare.hpp:519-529 | an item comes out merged exactly when what is there now is the union of what was there and the rekordbox side |
| `Comparing.CountsAreOfCases` | tools/engine_import_probe_compare.hpp:556-560 | each verdict's count is the number of planted cases whose first item has it |
| `Comparing.AlsoChangedMeans` | tools/engine_import_probe_compare.hpp:533-554 | what also changed: exactly the differing fields of the first item's track that no item of the case watches |
| `Comparing.TracksMean` | tools/engine_import_probe_compare.hpp:660-699 | tracks added are only in the later record, removed only in the earlier and in no case, touched in both and in no case with some field that differs |
| `Comparing.ChangesMean` | tools/engine_import_probe_compare.hpp:682-699 | each field's count is the number of touched tracks that differ in it |
| `Comparing.NothingIsLost` | tools/engine_import_probe_compare.hpp:502-721 | a changed field of a track the cases cover, or of one they are not about, is always reported |
| `Comparing.UncoveredIsLost` | tools/engine_import_probe_compare.hpp:526-555 | a field that is not covered changes without a trace, in two given records |
| `Comparing.LosesNothingIff` | tools/engine_import_probe_compare.hpp:502-721 | no change is ever lost, whatever the records, exactly when the cases cover their tracks |
| `Comparing.SecondTrackIsNotCovered` | tools/engine_import_probe_compare.hpp:512-532 | a case that watches one field of two tracks leaves the second track's other fields to nobody |
| `Comparing.OneTrackCasesCover` | tools/engine_import_probe_compare.hpp:508-555 | cases of value items, each on its first item's track, cover theirs |
| `Comparing.TotalsAddUp` | tools/engine_import_probe_compare.hpp:556-560 | the counted verdicts and the cases not planted add up to the cases |
| `Comparing.SelfComparisonIsQuiet` | tools/engine_import_probe_compare.hpp:502-721 | a record against itself reports nothing |
| `PlaylistOrder.Linearise` | tools/engine_import_probe.cpp:502-528 | what the two passes list, in order, with the off-chain mark |
| `PlaylistOrder.FollowChain` | tools/engine_import_probe.cpp:513-518 | the inner loop ends on every graph and follows the chain to its end or to what was visited |
| `PlaylistOrder.ListsEveryEntityOnce` | tools/engine_import_probe.cpp:502-528 | whatever the links, cycles and merging chains included, every entity is listed, and once |
| `PlaylistOrder.MarksTheUnreached` | tools/engine_import_probe.cpp:509-528 | an entity is marked off the chain exactly when no chain from an unpointed entity reaches it |
| `PlaylistOrder.EntriesAreInOrder` | tools/engine_import_probe.cpp:502-528 | unmarked entities first, marked ones after them by id; an unmarked one begins a chain or follows its link, a chain goes on while its links lead to what is not listed, and chains come by the id they begin with |
| `PlaylistOrder.SoundChainIsKept` | tools/engine_import_probe.cpp:502-528 | one sound chain is listed in its own order with nothing marked |
| `PlaylistOrder.FullName` | tools/engine_import_probe.cpp:481-489 | the loop ends on cyclic parents and gathers the titles up to the top, a missing parent or a repeat |
| `PlaylistOrder.FullNameIsThePath` | tools/engine_import_probe.cpp:481-489 | on acyclic parents the name is all the titles from the top down, slashes between, exactly when the playlist has a title or no parents |
| `PlaylistOrder.FullNameFromFirstTitle` | tools/engine_import_probe.cpp:481-489 | in any case it is the titles from the top down to the nearest titled playlist, the untitled ones below it leaving no trace |
| `PlaylistOrder.UntitledTakesParentsName` | tools/engine_import_probe.cpp:481-489 | an untitled playlist gets its parent's name, not the full path |
| `PlaylistOrder.NamesTellTitles` | tools/engine_import_probe.cpp:481-489 | on acyclic parents, titled playlists without a slash in any title on the way have one name exactly when they have the same titles on the way |
| `PlaylistOrder.SlashedTitleSharesName` | tools/engine_import_probe.cpp:481-489 | a playlist `A/B` and a `B` under an `A` have one name |
| `TrackPairing.PairRows` | tools/engine_import_probe.cpp:311-351 | the three loops compute every row's key and the number that fell back to the file name |
| `TrackPairing.NamesMatchButCase` | tools/engine_import_probe.cpp:303-309 | two files are of one name exactly when their last components differ at most in the case of ASCII letters |
| `TrackPairing.FileNameIsTheEnd` | tools/engine_import_probe.cpp:311-351 | a file name is the longest end of the path without a slash |
| `TrackPairing.RowsAreNeverMerged` | tools/engine_import_probe.cpp:334-349 | two Engine rows get one key exactly when they name the same file, or neither names one and their ids agree, or one names none and the other's path, or the rekordbox path it falls back to under the same file name, reads like the id |
| `TrackPairing.PosesByKey` | tools/engine_import_probe.cpp:334-349 | a row with a file gets what stands for an id exactly when its path, or the one it falls back to, reads like it |
| `TrackPairing.PathsDoNotPose` | tools/engine_import_probe.cpp:334-349 | where no path of either catalog begins with the id prefix, the last can not happen |
| `TrackPairing.FilePosesAsId` | tools/engine_import_probe.cpp:336-336 | a file named `engine id:5` gets the key of the row of id 5 that has no file |
| `TrackPairing.FallbackPosesAsId` | tools/engine_import_probe.cpp:342-345 | so does any file of that name that falls back to a rekordbox track of that path |
| `TrackPairing.TableKeepsRowsApart` | tools/engine_import_probe.cpp:334-349 | with distinct ids, the same condition decides the table's entries |
| `TrackPairing.PathsPairFirst` | tools/engine_import_probe.cpp:342-348 | a row whose path a rekordbox track has is recorded under that path |
| `TrackPairing.KeyKeepsName` | tools/engine_import_probe.cpp:339-348 | a row's key has the row's own file name even where it is another catalog's path |
| `Clipping.ClipToSide` | tools/flatten_logo.py:177-190 | the loop emits, edge by edge, what one pass keeps |
| `Clipping.ClipToRect` | tools/flatten_logo.py:198-203 | the four passes in order |
| `Clipping.IntersectIsAlong` | tools/flatten_logo.py:192-196 | the computed crossing is a point of the edge at the fraction where it meets the side, and nothing is divided by zero |
| `Clipping.PassInside` | tools/flatten_logo.py:177-190 | after a pass all is inside its side, and inside every other side it was inside of before |
| `Clipping.ClippedLiesInRect` | tools/flatten_logo.py:198-203 | every vertex lies in the rectangle after all four passes |
| `Clipping.ClipFixpoints` | tools/flatten_logo.py:198-203 | a polygon comes back unchanged exactly when it lies in the rectangle |
| `Clipping.ClipIdempotent` | tools/flatten_logo.py:198-203 | clipping twice is clipping once |
| `Clipping.PassKeepsOutline` | tools/flatten_logo.py:177-190 | a pass keeps every point of the outline that is inside its side |
| `Clipping.PassStaysOnOutline` | tools/flatten_logo.py:177-190 | and every vertex a pass emits is a point of the outline it was given |
| `Clipping.ClipKeepsOutline` | tools/flatten_logo.py:198-203 | every point of the outline in the rectangle is on the clipped outline |
| `Clipping.Flatten` | tools/flatten_logo.py:157-171 | the nested loops give each segment's points in order |
| `Clipping.CurveStaysInBox` | tools/flatten_logo.py:165-170 | every point made from a cubic lies in the bounding box of its control points |
| `Clipping.CurveIsDeCasteljau` | tools/flatten_logo.py:165-170 | each point is de Casteljau's construction on the four control points at i / steps, the last at the end of the curve |
| `CatalogDigest.CatalogDigestLines` | src/application/catalog_digest.cpp:50-97 | the lines of some sorted order of the tracks and of each track's cues |
| `CatalogDigest.ReadOrderDoesNotMatter` | src/application/catalog_digest.cpp:50-97 | where what differs is told apart by the sort keys, the same library in any order gives the same lines |
| `CatalogDigest.OrderMattersByTies` | src/application/catalog_digest.cpp:50-97 | the same library gives the same lines in every order exactly when cues of one kind, slot and millisecond print alike, and tracks of one name and id print the same line and the same sorted cue lines |
| `CatalogDigest.CueSortsPrintAlike` | src/application/catalog_digest.cpp:82-94 | any two sorts of some cues print the same lines exactly when the tied ones print the same line |
| `CatalogDigest.TitlesOfOneName` | src/application/catalog_digest.cpp:60-68 | of two tracks of one name and id with different titles, the order shows |
| `CatalogDigest.DigestTellsLibrariesApart` | src/application/catalog_digest.cpp:50-97 | where no printed field holds a tab, equal lines are of the same tracks and cues, as printed |
| `CatalogDigest.DigestIsOfContents` | src/application/catalog_digest.cpp:50-97 | where numbers are told apart by how they are written and no word holds a tab, lines of one library are lines of another exactly when the two hold the same tracks and cues, field by field: positions to the nearest millisecond, loop ends of loops only, tempi as written |
| `CatalogDigest.MsIsNearest` | src/application/catalog_digest.cpp:23-26 | a position is written as the nearest millisecond, halves away from zero |
| `CatalogDigest.ArrangedInOrder` | src/application/catalog_digest.cpp:60-94 | tracks come by filename, then id; a track's cues memory first, then by number, then by millisecond |
| `CatalogDigest.TabsConfuse` | src/application/catalog_digest.cpp:74-78 | a tab in a title gives two different tracks one line |
| `CatalogDigest.LinesAreBlocks` | src/application/catalog_digest.cpp:73-95 | the lines tell the tracks' blocks apart: equal lines are equal block by block, and of as many tracks |
| `CatalogDigest.PermutedIsTheSame` | src/application/catalog_digest.cpp:52-54 | permuting the tracks, or each track's cues, is the same library |

## Left out

- Integer widths: `size_t`, `int` and `long` overflow, and the 64-bit casts of huge finite times in `beatsFromMarkers`.
- IEEE rounding: times and coordinates are reals.
- SHA-256 (`catalogDigest`) and the formatting of numbers; the digest lines take the formats as parameters.
- `std::sort` is modelled as some sorted permutation; which of several equal elements comes first is not said.
- `samePath` and `pathIsAtOrUnder` are stated on keys as predicates (`PathKey.SamePath`, `PathKey.PathIsAtOrUnder`); `composedPathSpelling` is `composeUtf8`.
- `~PhasedProgress`, which only calls `done()`.
- PhasedBar.PhasedProgress.Warn, PhasedBar.PhasedProgress.Phase: plain forwards, modelled but without rows.
- `compareRecords`' playlist, file, clock and library-wide sections and all its wording: `alsoChanged` is kept as field, before and after; per-field changes as counts, without the example lines.
- The readers' error texts: each outcome carries the line number, field count, id or line the text would name.
- `readTracks`' readers and path normalisation: a row holds the normalised path, and its file name is the path's last component.
- `recordStick`'s SQL and file walking, and the naming of a playlist's entries; entries are their ids.
- The tools' main programs, `plant` and `restore`, the command line and console, audio levels, Camelot keys, stick identity and the FAT32 writes: easy members, or code over libraries that are not part of this model.
