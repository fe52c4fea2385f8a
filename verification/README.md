# Verified model of the emulator's media core and grant store

This project models the parts of the emulator whose correctness is hard to see from their code, in Dafny, and proves
what they guarantee. Where the code changes things step by step the model does too: the edge filters and predictors
write an array in place, the managers, the audio queues and the grant store are classes, and each such method is proved
against a specification about which the theorems are then stated.

- **H.264 deblocking** (`CInt`, `LineFilters`, `LineTheorems`, `LineJobs`, `EdgePlans`, `EdgeGeometry`, `DeblockLines`,
  `DeblockEdges`, `DeblockTheorems`, `ChromaPlanes`, `EdgeTheorems`, `SampleTheorems`, `BufferTheorems`). All 18
  in-place filters over one flat buffer with base and stride. Every one is proved equal to a list of *jobs*, one per
  line, each giving the places of the line's samples and the line's filter, run in order. About such lists: every line
  comes out as sections 8.7.2.3 and 8.7.2.4 of ITU-T Rec. H.264 demand of that line of the original buffer, nothing else
  changes, horizontal filters are transposed vertical ones, MBAFF double calls equal one full call, and the two chroma
  planes do not influence each other. The 8-bit and 16-bit C variables are explicit (`LineFilters` holds the standard's
  line functions and the code's side by side); the filters meet the standard exactly up to a clipping value of 125
  (luma) and 126 (chroma), and the tables of the standard stop at 25. Exchanging p and q commutes with strength 4
  always, and below it exactly when the delta is not rounded from halfway or the rounding is clipped away.
  `SampleTheorems` and `BufferTheorems` say the same once more without the line functions: where each line lies, and
  each new sample as a rounded weighted sum of old ones.
- **Chroma intra prediction** (`ChromaIntra`, `PredictionTheorems`). DC, horizontal, vertical and PLANE against section
  8.3.4 of H.264, and pixel by pixel from the bytes of the neighbour buffer.
- **XMA2 navigation** (`BigEndianBits`, `XmaPackets`, `XmaNavigation`, `XmaLastFrame`, `XmaSeek`, `XmaLayout`). The
  chain of packets, the unaligned frame lengths, the two searches for a frame and the sample seek, which find every
  frame where the headers and lengths lay it. The search for the last frame steps back by the *last* packet's own skip
  count, which may lead to another packet, to one without frames or out of the data; the exact condition under which it
  agrees with the other search is proved for all well-formed chains, with three packets for which it does not.
- **XAudio2 block ring** (`AudioRing`). A state machine of three steps of FeedBlock, two of Stop, one of Play and the
  voice, in any interleaving, and the class that runs it: no lock keeps Play and Stop out of a FeedBlock. At most one
  FeedBlock runs at a time. XAudio2API.cpp and XAudio27API.cpp have the same three functions, and the model is of both.
- **Display manager and buffer manager** (`DispMgr`, `BufMgr`). A priority queue and a reference-bit allocator over
  arrays of 64 slots, and what whole runs of them guarantee. Each method is proved to be the step the runs are made of.
- **CemuExtend grants** (`NumberText`, `NestedMaps`, `XmlTree`, `GrantRecords`, `GrantDocuments`, `GrantLoops`,
  `GrantStore`, `HexArrays`). Four maps, Set, Get and Remove, and their section of Save and Load, over documents that
  are trees of named elements with text attributes. A char of the model stands for one byte of a C string.
- **Cubeb byte queues** (`CubebFifo`). The output and the input queue as two classes over one state machine.
- **Masked signature scan** (`SignatureScan`). The three paths of `hle_locate`. The first-byte path compares the first
  byte without the mask, so it agrees with the masked comparison exactly when the mask's first byte is all ones.

Two places where a reader may expect something else: `XAudio2API::Stop` returns `m_playing`, that is *false* when it did
stop the voice, and the model keeps that; a settings document without a CemuExtend element makes the loader search the
document's top level, because a parser on no element falls back to the document.

## Model

| member | source | states |
|---|---|---|
| LineTheorems.LumaMachineMeetsStandard | dependencies/ih264d/common/ih264_deblk_edge_filters.c:571-615 | for all lines and thresholds the luma code gives the standard's line, if and only if tc0 is at most 125 |
| LineTheorems.ChromaMachineMeetsStandard | dependencies/ih264d/common/ih264_deblk_edge_filters.c:686-729 | the same for chroma, if and only if tc0 is at most 126 |
| LineTheorems.LumaExactUpTo125 | dependencies/ih264d/common/ih264_deblk_edge_filters.c:585-614 | up to 125 tc, delta and val fit their C types: every sample equals the unbounded result |
| LineTheorems.ChromaExactUpTo126 | dependencies/ih264d/common/ih264_deblk_edge_filters.c:686-714 | the same for chroma up to 126 |
| LineTheorems.LumaWrongFrom126 | dependencies/ih264d/common/ih264_deblk_edge_filters.c:588-599 | from 126 on a plain step edge is filtered wrongly, because the WORD8 tc overflows |
| LineTheorems.ChromaWrongFrom127 | dependencies/ih264d/common/ih264_deblk_edge_filters.c:687-713 | the same for chroma from 127 on |
| LineTheorems.SecondSampleFits | dependencies/ih264d/common/ih264_deblk_edge_filters.c:601-614 | the p1/q1 update, written with += and no clip, never leaves 0..255 and moves by at most tc0 |
| LineTheorems.EdgeSumKept | dependencies/ih264d/common/ih264_deblk_edge_filters.c:588-599 | p0 and q0 move by at most tC, and their sum is kept whenever neither p0 + delta nor q0 - delta leaves 0..255 |
| LineTheorems.Bs4StaysWithin | dependencies/ih264d/common/ih264_deblk_edge_filters.c:136-189 | strength 4 keeps every sample within any bounds the line's samples keep |
| LineTheorems.Bs4FixesFlat | dependencies/ih264d/common/ih264_deblk_edge_filters.c:136-189 | strength 4 leaves a flat line as it is |
| LineTheorems.Bs4Mirrors | dependencies/ih264d/common/ih264_deblk_edge_filters.c:136-189 | strength 4 commutes with exchanging p and q, for all thresholds |
| LineTheorems.Bslt4MirrorsIff | dependencies/ih264d/common/ih264_deblk_edge_filters.c:585-614 | below strength 4, for all samples and thresholds, luma and chroma: the line commutes with exchanging p and q if and only if it is not filtered, the sum under the shift is not halfway, or delta is clipped to tC |
| LineTheorems.OneIsNotClipped | dependencies/ih264d/common/ih264_deblk_edge_filters.c:590-599 | why the clip to 0..255 does not enter: it cannot hide the rounding of an unclipped delta on both sides of the edge |
| LineTheorems.LumaBslt4MirrorsIff | dependencies/ih264d/common/ih264_deblk_edge_filters.c:571-615 | the same if and only if for the luma code with its C types, for tc0 up to 125 |
| LineTheorems.ChromaBslt4MirrorsIff | dependencies/ih264d/common/ih264_deblk_edge_filters.c:686-729 | the same for the chroma code, for tc0 up to 126 |
| LineTheorems.Bslt4DoesNotMirror | dependencies/ih264d/common/ih264_deblk_edge_filters.c:706-713 | a chroma line that is halfway: it and its mirror image come out the same |
| SampleTheorems.LumaBs4Taps | dependencies/ih264d/common/ih264_deblk_edge_filters.c:136-189 | in plain numbers, for all lines and thresholds: a line is filtered exactly if p0 - q0, p1 - p0 and q1 - q0 are within the thresholds; then each side is strong or weak by its own test, and its samples are the rounded 8ths and 4ths of 2 p3 + 3 p2 + p1 + p0 + q0, p2 + p1 + p0 + q0 and p2 + 2 p1 + 2 p0 + 2 q0 + q1, or only p0 the 4th of 2 p1 + p0 + q1 |
| SampleTheorems.LumaBs4Weights | dependencies/ih264d/common/ih264_deblk_edge_filters.c:136-189 | what each sample contributes: raising the eight samples by multiples of 8 raises the new ones by the taps' weights, all eight on both sides and both branches |
| SampleTheorems.ChromaBs4Taps | dependencies/ih264d/common/ih264_deblk_edge_filters.c:1490-1510 | chroma: the rounded 4ths of 2 p1 + p0 + q1 and 2 q1 + q0 + p1, or nothing |
| SampleTheorems.LumaBslt4Moves | dependencies/ih264d/common/ih264_deblk_edge_filters.c:571-615 | below strength 4: p0 and q0 move towards each other by the rounded 8th of 4 (q0 - p0) + (p1 - q1), no further than tc0 plus one for each near side and not out of 0..255; p1 of a near side goes half the way, rounded down, between p2 and the rounded mean of p0 and q0, no further than tc0 |
| SampleTheorems.ChromaBslt4Moves | dependencies/ih264d/common/ih264_deblk_edge_filters.c:686-729 | chroma: p0 and q0 move likewise, by no more than tc0 + 1, and p1 and q1 stay |
| LineJobs.RunFiltersOriginalLines | dependencies/ih264d/common/ih264_deblk_edge_filters.c:126-191 | when no two lines share a sample, each comes out as its filter makes it from the original buffer, whatever came before |
| LineJobs.RunOrderIrrelevant | dependencies/ih264d/common/ih264_deblk_edge_filters.c:126-191 | two orders of the same separate lines leave the same buffer |
| LineJobs.RunKeepsOutside | dependencies/ih264d/common/ih264_deblk_edge_filters.c:126-191 | a sample on no line keeps its value |
| LineJobs.ViewOfRun | dependencies/ih264d/common/ih264_deblk_edge_filters.c:224-315 | filtering and then renumbering the samples is renumbering first and filtering there, overlapping lines included |
| LineJobs.FlippedJob | dependencies/ih264d/common/ih264_deblk_edge_filters.c:136-189 | a filter that commutes with mirroring may walk its line from either side |
| EdgePlans.PackedBytes | dependencies/ih264d/common/ih264_deblk_edge_filters.c:561-569 | the four strengths packed into the 32-bit word are read back piece by piece |
| DeblockLines.LumaBs4PSide | dependencies/ih264d/common/ih264_deblk_edge_filters.c:147-188 | the p side of a luma line at strength 4 is the standard's |
| DeblockLines.LumaBs4QSide | dependencies/ih264d/common/ih264_deblk_edge_filters.c:147-188 | the q side is the same function seen from the other side |
| DeblockLines.LumaBs4Line | dependencies/ih264d/common/ih264_deblk_edge_filters.c:131-189 | one pass of the inner loop rewrites exactly this line of the buffer |
| DeblockLines.LumaBslt4Samples | dependencies/ih264d/common/ih264_deblk_edge_filters.c:576-614 | the nested updates of p1, p0, q0, q1 equal the line function with C wrap-around |
| DeblockLines.AddClipped | dependencies/ih264d/common/ih264_deblk_edge_filters.c:601-614 | the unclipped += gives the standard's p1 or q1 for every tc0 |
| DeblockLines.PairIsJobs | dependencies/ih264d/common/ih264_deblk_edge_filters.c:1584-1614 | reading the U and the V line before storing either is one line after the other when they share no sample |
| DeblockLines.LumaBslt4Line | dependencies/ih264d/common/ih264_deblk_edge_filters.c:571-615 | one pass of the inner loop rewrites exactly this line of the buffer |
| DeblockLines.ChromaBs4Line | dependencies/ih264d/common/ih264_deblk_edge_filters.c:1481-1510 | one pass reads both lines and then stores p0 and q0 of those to be filtered, each with its own thresholds; for lines that share no sample it is the U job and then the V job |
| DeblockLines.ChromaBslt4Line | dependencies/ih264d/common/ih264_deblk_edge_filters.c:1699-1735 | the same below strength 4, each plane with its own tc0 |
| DeblockEdges.LumaVertBs4 | dependencies/ih264d/common/ih264_deblk_edge_filters.c:104-192 | the whole buffer afterwards: 16 lines, one per row, filtered at strength 4 |
| DeblockEdges.LumaHorzBs4 | dependencies/ih264d/common/ih264_deblk_edge_filters.c:224-315 | 16 lines, one per column, with separate pointers to p and q rows |
| DeblockEdges.ChromaVertBs4Bp | dependencies/ih264d/common/ih264_deblk_edge_filters.c:347-405 | 8 interleaved U and V lines, one pair of thresholds |
| DeblockEdges.ChromaHorzBs4Bp | dependencies/ih264d/common/ih264_deblk_edge_filters.c:437-502 | 8 interleaved chroma lines across rows, one pair of thresholds; for strides of 1 and -1, where a U and a V line share samples, both are read before either is stored |
| DeblockEdges.LumaVertBslt4 | dependencies/ih264d/common/ih264_deblk_edge_filters.c:536-618 | four pieces of 4 lines, each with its strength's tc0, pieces of strength 0 left alone |
| DeblockEdges.ChromaVertBslt4Bp | dependencies/ih264d/common/ih264_deblk_edge_filters.c:652-732 | four pieces of 2 chroma lines |
| DeblockEdges.LumaHorzBslt4 | dependencies/ih264d/common/ih264_deblk_edge_filters.c:766-851 | four pieces of 4 columns |
| DeblockEdges.ChromaHorzBslt4Bp | dependencies/ih264d/common/ih264_deblk_edge_filters.c:885-972 | four pieces of 2 chroma columns; for strides of 1 and -1, where a U and a V line share samples, both are read before either is stored |
| DeblockEdges.LumaVertBs4Mbaff | dependencies/ih264d/common/ih264_deblk_edge_filters.c:1009-1097 | 8 luma lines at strength 4 |
| DeblockEdges.ChromaVertBs4MbaffBp | dependencies/ih264d/common/ih264_deblk_edge_filters.c:1130-1184 | 4 chroma lines at strength 4 |
| DeblockEdges.LumaVertBslt4Mbaff | dependencies/ih264d/common/ih264_deblk_edge_filters.c:1219-1300 | four pieces of 2 luma lines |
| DeblockEdges.ChromaVertBslt4MbaffBp | dependencies/ih264d/common/ih264_deblk_edge_filters.c:1335-1412 | four pieces of 1 chroma line |
| DeblockEdges.ChromaVertBs4 | dependencies/ih264d/common/ih264_deblk_edge_filters.c:1453-1513 | 8 chroma lines, U and V with thresholds of their own |
| DeblockEdges.ChromaHorzBs4 | dependencies/ih264d/common/ih264_deblk_edge_filters.c:1550-1615 | 8 chroma lines across rows, U and V with thresholds of their own; for strides of 1 and -1, where a U and a V line share samples, both are read before either is stored |
| DeblockEdges.ChromaVertBslt4 | dependencies/ih264d/common/ih264_deblk_edge_filters.c:1655-1738 | four pieces of 2 chroma lines, U and V with thresholds and tables of their own |
| DeblockEdges.ChromaHorzBslt4 | dependencies/ih264d/common/ih264_deblk_edge_filters.c:1778-1870 | four pieces of 2 chroma columns, U and V with thresholds and tables of their own; for strides of 1 and -1, where a U and a V line share samples, both are read before either is stored |
| DeblockEdges.PairsAreJobs | dependencies/ih264d/common/ih264_deblk_edge_filters.c:1778-1870 | for all other strides the pairs are the plain list of lines |
| DeblockEdges.ChromaVertBs4Mbaff | dependencies/ih264d/common/ih264_deblk_edge_filters.c:1910-1966 | 4 chroma lines, U and V with thresholds of their own |
| DeblockEdges.ChromaVertBslt4Mbaff | dependencies/ih264d/common/ih264_deblk_edge_filters.c:2006-2087 | four pieces of 1 chroma line, U and V with thresholds and tables of their own |
| EdgeGeometry.LumaVertApart | dependencies/ih264d/common/ih264_deblk_edge_filters.c:115-135 | with strides at least as long as a line, of either sign, the lines of a vertical luma edge share no sample |
| EdgeGeometry.LumaHorzApart | dependencies/ih264d/common/ih264_deblk_edge_filters.c:238-257 | the same for a horizontal luma edge |
| EdgeGeometry.ChromaVertApart | dependencies/ih264d/common/ih264_deblk_edge_filters.c:1468-1488 | the same for interleaved vertical chroma lines |
| EdgeGeometry.ChromaHorzApart | dependencies/ih264d/common/ih264_deblk_edge_filters.c:1567-1592 | the same for interleaved horizontal chroma lines |
| EdgeGeometry.EveryLineFiltered | dependencies/ih264d/common/ih264_deblk_edge_filters.c:126-191 | after an edge call, every line of every plane is its filter applied to that line of the original buffer |
| EdgeGeometry.NothingElseTouched | dependencies/ih264d/common/ih264_deblk_edge_filters.c:126-191 | a sample on no line of the edge is untouched |
| DeblockTheorems.OnlyInnerSamplesChange | dependencies/ih264d/common/ih264_deblk_edge_filters.c:126-191 | only p2..q2 (luma, strength 4), p1..q1 (luma, below 4) or p0, q0 (chroma) of some line may change |
| DeblockTheorems.LumaBs4MeetsStandard | dependencies/ih264d/common/ih264_deblk_edge_filters.c:126-191 | every line of a strength 4 luma edge is the standard's, read from the original buffer |
| DeblockTheorems.LumaBslt4MeetsStandard | dependencies/ih264d/common/ih264_deblk_edge_filters.c:561-617 | every line below strength 4 is the standard's when its tc0 is at most 125 |
| DeblockTheorems.ChromaBs4MeetsStandard | dependencies/ih264d/common/ih264_deblk_edge_filters.c:1473-1512 | every U and V line of a strength 4 chroma edge is the standard's, with its plane's thresholds |
| DeblockTheorems.ChromaBslt4MeetsStandard | dependencies/ih264d/common/ih264_deblk_edge_filters.c:1682-1737 | every U and V line below strength 4 is the standard's when its tc0 is at most 126 |
| DeblockTheorems.HorizontalIsTransposedVertical | dependencies/ih264d/common/ih264_deblk_edge_filters.c:766-851 | a horizontal edge, luma or chroma, is its neighbourhood transposed, filtered as a vertical edge and transposed back |
| DeblockTheorems.NeighbourhoodDistinct | dependencies/ih264d/common/ih264_deblk_edge_filters.c:238-257 | that transposition is one whenever the stride is no shorter than a row of the neighbourhood |
| DeblockTheorems.MbaffHalvesBs4 | dependencies/ih264d/common/ih264_deblk_edge_filters.c:1009-1097 | calls on the upper and the lower half equal one call of the full strength 4 luma filter |
| DeblockTheorems.ChromaMbaffHalvesBs4 | dependencies/ih264d/common/ih264_deblk_edge_filters.c:1910-1966 | the same for chroma |
| DeblockTheorems.MbaffHalvesBslt4 | dependencies/ih264d/common/ih264_deblk_edge_filters.c:1219-1300 | half calls with strengths (b0,b0,b1,b1) and (b2,b2,b3,b3) equal one call with (b0,b1,b2,b3) |
| DeblockTheorems.ChromaMbaffHalvesBslt4 | dependencies/ih264d/common/ih264_deblk_edge_filters.c:2006-2087 | the same for chroma |
| DeblockTheorems.FieldsMakeWhole | dependencies/ih264d/common/ih264_deblk_edge_filters.c:1009-1097 | calls on the two interleaved fields with doubled stride equal one call on all lines |
| DeblockTheorems.FieldPlans | dependencies/ih264d/common/ih264_deblk_edge_filters.c:1219-1300 | the field calls of the full luma filters are the MBAFF filters, with the same strengths |
| DeblockTheorems.ChromaFieldPlans | dependencies/ih264d/common/ih264_deblk_edge_filters.c:2006-2087 | the same for chroma |
| EdgeTheorems.LumaPlansRegular | dependencies/ih264d/common/ih264_deblk_edge_filters.c:561-617 | the luma filters' lines are one plane each, filtered 4 or 3 samples deep |
| EdgeTheorems.ChromaPlansRegular | dependencies/ih264d/common/ih264_deblk_edge_filters.c:1682-1737 | the chroma filters' lines are two planes side by side, filtered 2 samples deep, or none |
| EdgeTheorems.LumaBs4Transposes | dependencies/ih264d/common/ih264_deblk_edge_filters.c:224-315 | ih264_deblk_luma_horz_bs4 is ih264_deblk_luma_vert_bs4 on the transposed neighbourhood |
| EdgeTheorems.LumaBslt4Transposes | dependencies/ih264d/common/ih264_deblk_edge_filters.c:766-851 | the same for the two luma filters below strength 4 |
| EdgeTheorems.ChromaBs4Transposes | dependencies/ih264d/common/ih264_deblk_edge_filters.c:1550-1615 | the same for the chroma filters of strength 4, both planes at once |
| EdgeTheorems.ChromaBslt4Transposes | dependencies/ih264d/common/ih264_deblk_edge_filters.c:1778-1870 | the same for the chroma filters below strength 4 |
| EdgeTheorems.LumaFieldsBs4 | dependencies/ih264d/common/ih264_deblk_edge_filters.c:1009-1097 | two calls of the MBAFF luma filter on the fields, with doubled stride, equal one call of the full filter |
| EdgeTheorems.LumaFieldsBslt4 | dependencies/ih264d/common/ih264_deblk_edge_filters.c:1219-1300 | the same below strength 4, with the same strengths in both calls |
| EdgeTheorems.ChromaFieldsBs4 | dependencies/ih264d/common/ih264_deblk_edge_filters.c:1910-1966 | the same for chroma at strength 4 |
| EdgeTheorems.ChromaFieldsBslt4 | dependencies/ih264d/common/ih264_deblk_edge_filters.c:2006-2087 | the same for chroma below strength 4 |
| BufferTheorems.LumaVertBs4Buffer | dependencies/ih264d/common/ih264_deblk_edge_filters.c:104-192 | the buffer afterwards, sample by sample: the line of row n lies at src + n * strd - 4 .. + 3, and each of its samples is what the taps make of the buffer before |
| BufferTheorems.LumaHorzBs4Buffer | dependencies/ih264d/common/ih264_deblk_edge_filters.c:224-315 | the same of column n, whose samples are one stride apart |
| BufferTheorems.LumaVertBslt4Buffer | dependencies/ih264d/common/ih264_deblk_edge_filters.c:536-618 | below strength 4 row n has the strength in the word's byte n / 4, highest first; strength 0 leaves it alone, any other filters it with that entry of the table |
| BufferTheorems.LumaHorzBslt4Buffer | dependencies/ih264d/common/ih264_deblk_edge_filters.c:766-851 | the same of column n |
| BufferTheorems.ChromaVertBs4Buffer | dependencies/ih264d/common/ih264_deblk_edge_filters.c:1453-1513 | U lies at even distances from src and V one sample on, samples of a plane two apart; each has its own thresholds |
| BufferTheorems.ChromaHorzBs4Buffer | dependencies/ih264d/common/ih264_deblk_edge_filters.c:1550-1615 | U in column 2n and V in column 2n + 1 |
| BufferTheorems.ChromaVertBslt4Buffer | dependencies/ih264d/common/ih264_deblk_edge_filters.c:1655-1738 | below strength 4 row n has the strength in byte n / 2, and each plane its own table |
| BufferTheorems.ChromaHorzBslt4Buffer | dependencies/ih264d/common/ih264_deblk_edge_filters.c:1778-1870 | the same of the columns 2n and 2n + 1 |
| BufferTheorems.SkippedLineKept | dependencies/ih264d/common/ih264_deblk_edge_filters.c:566-569 | a line left out keeps all its samples |
| BufferTheorems.PackedPiece | dependencies/ih264d/common/ih264_deblk_edge_filters.c:561-569 | byte 3 of the packed strengths, the highest, is piece 0 |
| BufferTheorems.PairOfStrideOne | dependencies/ih264d/common/ih264_deblk_edge_filters.c:1584-1614 | with a stride of 1 both lines of a pair are read before either is stored, and of the samples they share the two at V's edge are V's if its line is filtered, else U's |
| ChromaPlanes.PlanesAreIndependent | dependencies/ih264d/common/ih264_deblk_edge_filters.c:1655-1738 | de-interleaving after any chroma filter equals filtering the planes independently |
| EdgeTheorems.ChromaVertPlane | dependencies/ih264d/common/ih264_deblk_edge_filters.c:1655-1738 | of an interleaved vertical edge with even stride, each plane alone is a vertical edge of half the stride |
| EdgeTheorems.ChromaHorzPlane | dependencies/ih264d/common/ih264_deblk_edge_filters.c:1778-1870 | the same for horizontal edges |
| EdgeTheorems.ChromaEvenPlane | dependencies/ih264d/common/ih264_deblk_edge_filters.c:1453-1513 | at strength 4 the plane's lines are filtered with its own thresholds and nothing of the other plane |
| EdgeTheorems.ChromaPlanPlane | dependencies/ih264d/common/ih264_deblk_edge_filters.c:1655-1738 | below strength 4 likewise, with its own clipping table |
| ChromaPlanes.BothProfiles | dependencies/ih264d/common/ih264_deblk_edge_filters.c:1453-2087 | each of the six high profile filters, given equal Cb and Cr parameters, leaves the buffer its baseline twin leaves, for every stride |
| ChromaPlanes.Bs4EdgeMirrors | dependencies/ih264d/common/ih264_deblk_edge_filters.c:136-189 | a whole strength 4 edge comes out the same with its two sides exchanged |
| ChromaPlanes.Bs4EdgeStaysWithin | dependencies/ih264d/common/ih264_deblk_edge_filters.c:136-189 | on a whole strength 4 edge, each line stays within the bounds it had |
| ChromaIntra.PlaneOf | dependencies/ih264d/common/ih264_chroma_intra_pred_filters.c:136-137 | which bytes of the neighbour buffer are the left column (from the bottom up), the corner and the row above of each plane |
| ChromaIntra.DcValues | dependencies/ih264d/common/ih264_chroma_intra_pred_filters.c:131-246 | the four quadrant values are section 8.3.4's for every availability of upper left, lower left and top |
| ChromaIntra.PredictDc | dependencies/ih264d/common/ih264_chroma_intra_pred_filters.c:110-271 | the 8x8 block of both planes afterwards, the rest of the buffer as it was |
| ChromaIntra.PredictHorz | dependencies/ih264d/common/ih264_chroma_intra_pred_filters.c:306-329 | every row shows its left neighbour, in both planes |
| ChromaIntra.PredictVert | dependencies/ih264d/common/ih264_chroma_intra_pred_filters.c:364-393 | every column shows the sample above it |
| ChromaIntra.PlaneSums | dependencies/ih264d/common/ih264_chroma_intra_pred_filters.c:450-457 | the loop's sums are H and V of section 8.3.4.4, although the code indexes the border from one pointer in each direction |
| ChromaIntra.PredictPlane | dependencies/ih264d/common/ih264_chroma_intra_pred_filters.c:428-477 | every pixel is the standard's PLANE prediction of its own plane |
| ChromaIntra.PredictedBuffer | dependencies/ih264d/common/ih264_chroma_intra_pred_filters.c:465-476 | in the buffer each pixel is predicted from its own plane's neighbours, and no other byte changes |
| ChromaIntra.BlockHasPlaces | dependencies/ih264d/common/ih264_chroma_intra_pred_filters.c:465-474 | with rows at least 16 bytes apart the block's 128 samples are different |
| ChromaIntra.DcStaysWithin | dependencies/ih264d/common/ih264_chroma_intra_pred_filters.c:188-246 | a DC quadrant stays within the bounds of exactly the neighbours it uses, and is 128 without neighbours |
| ChromaIntra.FlatBorderFlatBlock | dependencies/ih264d/common/ih264_chroma_intra_pred_filters.c:458-475 | a border of one value predicts that value, in PLANE and every other mode |
| ChromaIntra.SwapTransposes | dependencies/ih264d/common/ih264_chroma_intra_pred_filters.c:450-475 | swapping left and top transposes the predicted block, and exchanges horizontal and vertical mode |
| ChromaIntra.SwappedBlock | dependencies/ih264d/common/ih264_chroma_intra_pred_filters.c:450-475 | the same for the interleaved block in memory |
| PredictionTheorems.HorzPixel | dependencies/ih264d/common/ih264_chroma_intra_pred_filters.c:306-329 | pixel (x, y) of plane c is byte 14 - 2y + c of the neighbour buffer |
| PredictionTheorems.VertPixel | dependencies/ih264d/common/ih264_chroma_intra_pred_filters.c:364-393 | pixel (x, y) of plane c is byte 18 + 2x + c |
| PredictionTheorems.DcPixel | dependencies/ih264d/common/ih264_chroma_intra_pred_filters.c:110-271 | every DC pixel, for every availability word: the rounded mean of the eight or four neighbours that bits 0, 4 and 2 and its quadrant let count, 128 without any |
| PredictionTheorems.PlanePixelRounds | dependencies/ih264d/common/ih264_chroma_intra_pred_filters.c:428-477 | every PLANE pixel in plain numbers: the slopes are the rounded 34 H / 64 and 34 V / 64, with the border samples weighing 1 to 4, and the pixel the rounded 32nd of the height, brought into 0..255 |
| PredictionTheorems.LinearBorder | dependencies/ih264d/common/ih264_chroma_intra_pred_filters.c:450-475 | PLANE continues a border that rises evenly, exactly for gradients from -3 to 4 |
| BigEndianBits.BitsSplit | dependencies/DirectX_2010/xma2defs.h:436-460 | a bit field is its upper part shifted plus its lower part |
| BigEndianBits.FieldOf | dependencies/DirectX_2010/xma2defs.h:436-460 | shifting and masking a wider field yields exactly the bits inside it |
| XmaPackets.FrameCount | dependencies/DirectX_2010/xma2defs.h:335-338 | the frame count is the packet's first 6 bits |
| XmaPackets.FirstFrameOffset | dependencies/DirectX_2010/xma2defs.h:340-345 | the first frame offset is the 15 bits from bit 6 on |
| XmaPackets.SkipCount | dependencies/DirectX_2010/xma2defs.h:352-355 | the skip count is the header's last 8 bits |
| XmaPackets.FrameLength | dependencies/DirectX_2010/xma2defs.h:436-460 | both branches read the 15 bits at that bit position, and only bytes that hold some of them |
| XmaNavigation.GetXmaFrameBitPosition | dependencies/DirectX_2010/xma2defs.h:466-524 | the walk ends and returns the start of the requested frame of the stream's chain as a DWORD, or 0 past the last; it relies only on the lengths of the frames before it in its own packet |
| XmaNavigation.SkipFrames | dependencies/DirectX_2010/xma2defs.h:504-513 | the inner loop lands on the start of the frame: header, first frame offset and the lengths of the frames before |
| XmaNavigation.WalkIsFrameStart | dependencies/DirectX_2010/xma2defs.h:504-513 | stepping over a packet's own frames in a DWORD leads to their starts, without wrapping |
| XmaPackets.AllReachable | dependencies/DirectX_2010/xma2defs.h:466-524 | in a chain whose lengths can all be read, every frame can be searched for |
| XmaNavigation.FramesBounds | dependencies/DirectX_2010/xma2defs.h:466-524 | frames that begin inside their packets begin behind a header and before the end of the data |
| XmaNavigation.PositionExact | dependencies/DirectX_2010/xma2defs.h:466-524 | in data up to 512 MiB the position is exact, and 0 means precisely that the stream has no such frame |
| XmaLastFrame.GetLastXmaFrameBitPosition | dependencies/DirectX_2010/xma2defs.h:530-583 | whenever the search reads nothing outside the data, it returns where the DWORD walk ends that starts in the packet it settles on, counted down from that packet's frames less one, from 2^32 - 1 if it has none |
| XmaLastFrame.SettledPosition | dependencies/DirectX_2010/xma2defs.h:570-582 | settled on a packet with readable frames, that is the start of its last frame |
| XmaLastFrame.LastFrameAgreement | dependencies/DirectX_2010/xma2defs.h:553-570 | in every well-formed chain, the search settles on a packet with frames inside the data and agrees with the other search on the stream's final frame, if and only if the last packet has frames or the last packet that has any lies exactly the last packet's own stride before it |
| XmaLastFrame.AgreesWhenLastPacketHasFrames | dependencies/DirectX_2010/xma2defs.h:530-583 | so it does whenever the last packet begins a frame |
| XmaLastFrame.AgreesWithEqualSkips | dependencies/DirectX_2010/xma2defs.h:565-570 | and when only the last packet is empty and it and the one before have the same skip count |
| XmaLastFrame.UnequalSkipsDisagree | dependencies/DirectX_2010/xma2defs.h:565-570 | with unequal skip counts it can land in another stream's packet: three packets that show it |
| XmaLastFrame.ThreePacketsAreWellFormed | dependencies/DirectX_2010/xma2defs.h:565-570 | and nothing is wrong with those packets: all their frames begin inside them |
| XmaSeek.GetXmaBlockContainingSample | dependencies/DirectX_2010/xma2defs.h:401-431 | the first block whose cumulative count exceeds the sample, and an offset smaller than that block's own count |
| XmaSeek.BlockHoldsSample | dependencies/DirectX_2010/xma2defs.h:401-431 | in a seek table that never decreases, that is the one block whose samples include the desired one |
| XmaSeek.GetXmaDecodePositionForSample | dependencies/DirectX_2010/xma2defs.h:592-620 | frame position and subframe of a sample, or failure |
| XmaSeek.SeekFindsSample | dependencies/DirectX_2010/xma2defs.h:592-620 | it succeeds exactly when the stream has enough frames, and then 512f + 128s <= sample < 512f + 128(s + 1) |
| XmaLayout.SearchFindsLaid | dependencies/DirectX_2010/xma2defs.h:466-524 | where the frames of a stream were laid, each packet's first at 8p + 32 + its first frame offset, the next ones one frame length on, the next packet 2048 (skip count + 1) bytes on: there the search finds frame n, and 0 behind the last |
| XmaLayout.SeekFindsLaid | dependencies/DirectX_2010/xma2defs.h:592-620 | the sample seek finds frame sample / 512 where it was laid and subframe sample % 512 / 128, and fails behind the last frame |
| XmaLayout.LastFindsLaid | dependencies/DirectX_2010/xma2defs.h:530-583 | the search for the last frame returns the start of the last frame laid in the packet it looks in |
| XmaLayout.LayoutOf | dependencies/DirectX_2010/xma2defs.h:466-524 | every chain whose lengths can be read is laid in such a way |
| AudioRing.NextKeepsSafe | src/audio/XAudio2API.cpp:251-282 | every step of feeder and voice keeps the ring's invariant |
| AudioRing.RunsAreSafe | src/audio/XAudio2API.cpp:251-282 | in every interleaving of the steps of FeedBlock, Stop and Play and of the voice, the real queue never exceeds the counter, the counter never exceeds 24, the queued slots are the ring stretch ending at the offset, and blocks are heard in fed order with fed contents |
| AudioRing.QueuedSlotsUntouched | src/audio/XAudio2API.cpp:265-270 | no step changes a slot the voice has yet to play |
| AudioRing.DropsOnlyWhenFull | src/audio/XAudio2API.cpp:254-263 | a block is dropped exactly when the voice really holds all 24 slots: the stale counter costs nothing |
| AudioRing.EveryBlockAccounted | src/audio/XAudio2API.cpp:119-128 | in every run the accepted blocks are those played, those queued and those flushed, in number |
| AudioRing.NothingLostIff | src/audio/XAudio27API.cpp:101-110 | the blocks played are all blocks before the queued ones, without a gap, if and only if no flush found a block in the queue |
| AudioRing.PlayingStays | src/audio/XAudio2API.cpp:110-128 | in every run only Play starts a silent voice and only Stop silences it |
| AudioRing.XAudioVoice.constructor | src/audio/XAudio2API.cpp:29-88 | the ring starts empty, in a safe state |
| AudioRing.XAudioVoice.CheckQueue | src/audio/XAudio27API.cpp:199-209 | the lazily refreshed test lets a block in exactly when the real queue has room |
| AudioRing.XAudioVoice.CopyIn | src/audio/XAudio2API.cpp:265-265 | the copy goes to a slot that is not queued |
| AudioRing.XAudioVoice.SubmitSlot | src/audio/XAudio27API.cpp:213-219 | the slot joins the queue's end, the offset moves round the ring, the counter does not wrap |
| AudioRing.XAudioVoice.FeedBlock | src/audio/XAudio2API.cpp:251-275 | with any steps of others, Stop, Flush and Play included, between its own, a call is that run of steps; it succeeds exactly when there was room at its test |
| AudioRing.XAudioVoice.Start | src/audio/XAudio2API.cpp:110-117 | starting does nothing to a playing voice and returns whether it plays |
| AudioRing.XAudioVoice.StopVoice | src/audio/XAudio2API.cpp:119-128 | with any steps of others in between, it stops and then empties the queue, leaves offset and counter alone and returns whether the voice plays: false when it did stop it and nobody plays meanwhile; of a silent voice it changes nothing and returns true |
| AudioRing.XAudioVoice.Others | src/audio/XAudio2API.cpp:110-128 | any sequence of steps that are not FeedBlock's keeps the ring safe |
| AudioRing.XAudioVoice.NeedAdditionalBlocks | src/audio/XAudio2API.cpp:284-287 | more blocks are wanted exactly while the real queue is shorter than the delay |
| DispMgr.DisplayManager.constructor | dependencies/ih264d/common/ih264_disp_mgr.c:66-77 | a new manager has no picture waiting |
| DispMgr.DisplayManager.Add | dependencies/ih264d/common/ih264_disp_mgr.c:108-126 | refused, and nothing changed, exactly for an id out of range or a slot with a pointer |
| DispMgr.DisplayManager.Get | dependencies/ih264d/common/ih264_disp_mgr.c:151-186 | hands out the waiting picture below which no other waits: every other slot in use has a higher POC, or the same and a lower id; clears just its slot; the id is -1 exactly when none waits, and so is NULL when the pictures waiting have buffers |
| DispMgr.AddWaits | dependencies/ih264d/common/ih264_disp_mgr.c:108-126 | an accepted picture with a buffer enters the queue, unless its POC is the reserved one, which leaves the queue as it was |
| DispMgr.RemoveTakesOut | dependencies/ih264d/common/ih264_disp_mgr.c:178-184 | clearing a slot takes exactly that entry out of the queue |
| DispMgr.OrderedEntriesOnce | dependencies/ih264d/common/ih264_disp_mgr.c:108-186 | in every run whose accepted pictures had buffers, the accepted entries with a POC of their own are the entries handed out plus those still waiting, as multisets |
| DispMgr.EveryEntryOnce | dependencies/ih264d/common/ih264_disp_mgr.c:108-186 | in every such run, all accepted entries are those handed out plus those waiting, if and only if none was added with the reserved POC |
| DispMgr.DrainIsSorted | dependencies/ih264d/common/ih264_disp_mgr.c:151-186 | a drain hands out exactly the waiting entries, each once, with POCs that never fall and, where they are equal, ids that fall |
| DispMgr.Drain | dependencies/ih264d/common/ih264_disp_mgr.c:151-186 | calling get until it reports nothing is such a drain and ends with nothing waiting |
| DispMgr.DefaultPocIsLost | dependencies/ih264d/common/ih264_disp_mgr.c:108-186 | in every run, a picture added with the reserved POC stays in its slot from then on, does not wait, and nothing with its id comes out |
| BufMgr.BufferManager.constructor | dependencies/ih264d/common/ih264_buf_mgr.c:237-262 | a new manager has no buffers and all statuses 0 |
| BufMgr.BufferManager.Add | dependencies/ih264d/common/ih264_buf_mgr.c:288-322 | refused exactly for an id out of range or one that holds another buffer; otherwise stored and counted, even beyond 64 |
| BufMgr.BufferManager.GetNextFree | dependencies/ih264d/common/ih264_buf_mgr.c:347-372 | hands out the free buffer of lowest id and marks only it in use; NULL exactly when none is free |
| BufMgr.BufferManager.CheckFree | dependencies/ih264d/common/ih264_buf_mgr.c:394-417 | succeeds exactly when some buffer is free |
| BufMgr.BufferManager.Release | dependencies/ih264d/common/ih264_buf_mgr.c:446-477 | clears the mask's bits of one status, and that status altogether if 1 alone is left |
| BufMgr.BufferManager.SetStatus | dependencies/ih264d/common/ih264_buf_mgr.c:508-536 | refused exactly if the id is not active or a bit of the mask is set; otherwise sets all of the mask's bits of that status, and no other bit or status changes |
| BufMgr.BufferManager.GetBuf | dependencies/ih264d/common/ih264_buf_mgr.c:600-613 | the buffer under an id |
| BufMgr.BufferManager.GetBufId | dependencies/ih264d/common/ih264_buf_mgr.c:639-659 | the lowest id of a buffer, -1 exactly when it was not added |
| BufMgr.BufferManager.GetStatus | dependencies/ih264d/common/ih264_buf_mgr.c:561-575 | the status under an id |
| BufMgr.ReleaseFrees | dependencies/ih264d/common/ih264_buf_mgr.c:463-470 | a release leaves the buffer free if and only if no bit other than IN_USE and the mask's was set |
| BufMgr.SettingBits | dependencies/ih264d/common/ih264_buf_mgr.c:524-531 | set_status refuses exactly when a bit of the mask is set, and otherwise sets all of the mask's bits and leaves the others |
| BufMgr.CheckThenGet | dependencies/ih264d/common/ih264_buf_mgr.c:347-417 | check_free succeeds exactly when get_next_free, called next, finds a buffer |
| BufMgr.IdOfBuf | dependencies/ih264d/common/ih264_buf_mgr.c:600-659 | get_bufid undoes get_buf on every active id |
| BufMgr.BufOfId | dependencies/ih264d/common/ih264_buf_mgr.c:600-659 | get_buf undoes get_bufid on every buffer added |
| BufMgr.HistoryKeepsOrder | dependencies/ih264d/common/ih264_buf_mgr.c:288-536 | in every history of dense adding the ids stay dense, the buffers distinct, and no buffer changes its id |
| BufMgr.OnlyReleaseFrees | dependencies/ih264d/common/ih264_buf_mgr.c:446-477 | only a release that leaves no bit but IN_USE returns a status to 0 |
| BufMgr.ReleasedBetween | dependencies/ih264d/common/ih264_buf_mgr.c:446-477 | between a non-zero and a zero status in a history there is such a release |
| BufMgr.NotHandedOutTwice | dependencies/ih264d/common/ih264_buf_mgr.c:347-372 | in every history a buffer handed out is handed out again only after its status returned to 0 through such a release |
| BufMgr.HeldUntilDropped | dependencies/ih264d/common/ih264_buf_mgr.c:446-536 | in every history, bits other than IN_USE that are set stay set until a release whose mask holds one of them |
| BufMgr.NotHandedOutWhileHeld | dependencies/ih264d/common/ih264_buf_mgr.c:347-536 | in every history, a buffer for which set_status set such bits is not handed out again before a release whose mask holds one of them |
| NumberText.ReadPrintInt | src/util/tinyxml2/tinyxml2.cpp:585-655 | what sscanf reads from a printed number is the number, negative ones included |
| NumberText.SurvivesAsSigned | src/config/XMLConfig.h:91-92 | a uint64 carried as sint64 in decimal text comes back, also above 2^63 |
| NumberText.SurvivesAsUnsigned | src/util/tinyxml2/tinyxml2.cpp:558-606 | a printed uint32 is read back |
| NumberText.BoolSurvives | src/util/tinyxml2/tinyxml2.cpp:564-624 | printed flags are read back although numbers are tried first |
| NumberText.PrintedDigits | src/util/tinyxml2/tinyxml2.cpp:552-588 | numbers are printed in decimal digits, highest first, with a minus sign if negative |
| XmlTree.NextNamed | src/config/XMLConfig.h:256-270 | the first sibling of that name at or after a place |
| XmlTree.CollectListing | src/config/XMLConfig.h:264-270 | reading siblings in order yields the map whose entries some of them decode to, in whatever order these stand and whatever else stands around them |
| XmlTree.AttributesRead | src/config/XMLConfig.h:72-102 | attributes that are missing or unreadable are 0, false or empty; numbers are taken modulo their width |
| GrantRecords.TitleSurvives | src/config/CemuConfig.cpp:488-495 | a saved title grant loads as itself, except that title 0 is left out |
| GrantRecords.ModSurvives | src/config/CemuConfig.cpp:496-505 | a saved mod grant loads with its masks modulo 64 if its title is not 0 and its principal has 1 to 256 bytes, and not at all otherwise |
| GrantRecords.TrustSurvives | src/config/CemuConfig.cpp:506-514 | the same for trust anchors, with mod ids of 1 to 128 bytes |
| GrantRecords.ApprovalSurvives | src/config/CemuConfig.cpp:515-527 | an approval loads as itself if its title is not 0 and key, digest and identity have 1 to 512, 128 and 256 bytes, and not at all otherwise |
| GrantRecords.SixBitsStay | src/config/CemuConfig.cpp:179-180 | of a mask exactly the lowest six bits survive |
| GrantDocuments.SectionsTogether | src/config/CemuConfig.cpp:485-528 | the four kinds of elements, each listing its map in an order of its own, make up a saved document |
| GrantDocuments.SectionIsFound | src/config/CemuConfig.cpp:116-160 | Load finds the section Save made, whatever settings surround it |
| GrantDocuments.SectionPlaces | src/config/CemuConfig.cpp:116-160 | with a content element the section is its first CemuExtend element, and the document's top level if it has none |
| GrantDocuments.SectionPlacesAtTop | src/config/CemuConfig.cpp:116-160 | without one it is the first CemuExtend element at the top, and the top level if there is none |
| GrantDocuments.LoadAfterSave | src/config/CemuConfig.cpp:485-528 | whatever order the unordered maps are walked in, Load after Save gives the store's normal form |
| GrantDocuments.LosslessIff | src/config/CemuConfig.cpp:161-209 | nothing is lost if and only if every entry passes Load's own rules |
| GrantDocuments.NormalIsStorable | src/config/CemuConfig.cpp:161-209 | a normal form passes Load's rules, so that normalising twice changes nothing more |
| GrantDocuments.LoadedIsStorable | src/config/CemuConfig.cpp:154-210 | whatever a document holds, what is loaded from it passes Load's rules |
| GrantDocuments.LoadSettles | src/config/CemuConfig.cpp:154-210 | after one load of any document, saving and loading again changes nothing |
| NestedMaps.PutFlat | src/config/CemuConfig.cpp:36-42 | assigning a nested entry sets exactly that pair and leaves no title empty |
| NestedMaps.EraseSteps | src/config/CemuConfig.cpp:44-51 | erasing a key, and the title with its last key, removes exactly that pair and leaves no title empty |
| NestedMaps.FlatDetermines | src/config/CemuConfig.h:579-583 | two nested maps without empty titles that hold the same pairs are equal |
| GrantStore.CemuConfig.GetGrant | src/config/CemuConfig.cpp:6-12 | the grant stored for the title, or none |
| GrantStore.CemuConfig.SetGrant | src/config/CemuConfig.cpp:14-18 | sets that title's grant, title 0 included, and nothing else |
| GrantStore.CemuConfig.RemoveGrant | src/config/CemuConfig.cpp:20-24 | removes that title's grant and nothing else |
| GrantStore.CemuConfig.GetModGrant | src/config/CemuConfig.cpp:26-34 | the grant stored for the pair, or none |
| GrantStore.CemuConfig.SetModGrant | src/config/CemuConfig.cpp:36-42 | sets exactly that pair, or nothing for title 0 or an empty principal |
| GrantStore.CemuConfig.RemoveModGrant | src/config/CemuConfig.cpp:44-51 | removes exactly that pair and leaves no empty title behind |
| GrantStore.CemuConfig.GetTrustAnchor | src/config/CemuConfig.cpp:53-61 | the anchor stored for the pair, or none |
| GrantStore.CemuConfig.SetTrustAnchor | src/config/CemuConfig.cpp:63-69 | sets exactly that pair, or nothing for title 0 or an empty mod id |
| GrantStore.CemuConfig.RemoveTrustAnchor | src/config/CemuConfig.cpp:71-78 | removes exactly that pair and leaves no empty title behind |
| GrantStore.CemuConfig.GetApproval | src/config/CemuConfig.cpp:80-88 | the approval stored for the pair, or none |
| GrantStore.CemuConfig.SetApproval | src/config/CemuConfig.cpp:90-97 | sets exactly that pair, or nothing for title 0 or an empty key, digest or identity |
| GrantStore.CemuConfig.RemoveApproval | src/config/CemuConfig.cpp:99-106 | removes exactly that pair and leaves no empty title behind |
| GrantStore.CemuConfig.Load | src/config/CemuConfig.cpp:154-210 | the store afterwards is what the document's section holds, later duplicates over earlier ones, and nothing of before |
| GrantStore.CemuConfig.Save | src/config/CemuConfig.cpp:485-528 | the document holds every entry once, in the order the maps happened to be walked |
| GrantStore.SaveThenLoad | src/config/CemuConfig.cpp:154-210 | a store that passes Load's rules is restored exactly, all four maps, by another store that loads what it saved |
| HexArrays.SetArray | src/config/XMLConfig.h:202-213 | two lower-case digits for every byte, in order |
| HexArrays.GetArray | src/config/XMLConfig.h:126-147 | fills the array with the bytes the text spells, and fails exactly when some character is no hexadecimal digit |
| HexArrays.HexIsLowerCase | src/config/XMLConfig.h:203-213 | the digits are 0 to 9 and lower-case a to f |
| HexArrays.DigitsRead | src/config/XMLConfig.h:114-123 | both cases are read with the digits' values, and no other character |
| HexArrays.HexRoundTrip | src/config/XMLConfig.h:126-213 | the text made of an array is accepted, and spells no other array |
| HexArrays.SetThenGet | src/config/XMLConfig.h:126-213 | an array set and got again is what it was |
| CubebFifo.RunsConserve | src/audio/CubebAPI.cpp:33-59 | in every run the accepted bytes are the bytes taken followed by the buffer, and the buffer stays within its capacity |
| CubebFifo.AcceptedIsAdmitted | src/audio/CubebAPI.cpp:120-131 | in every run the accepted bytes are exactly the chunks that found queue and chunk below the capacity, whole and in order |
| CubebFifo.StreamIsAccepted | src/audio/CubebAPI.cpp:33-59 | all output of a run, without the silence inserted, is the beginning of the chunks that found room, and the rest of them is queued |
| CubebFifo.SilenceOnlyWhenDry | src/audio/CubebAPI.cpp:42-56 | output is the buffer's beginning, and silence only where the buffer has run dry |
| CubebFifo.ReadsAddUp | src/audio/CubebAPI.cpp:49-55 | reading in two requests is reading in one of their total size |
| CubebFifo.NeededBlocksFit | src/audio/CubebAPI.cpp:114-131 | a block that NeedAdditionalBlocks asks for is always accepted if and only if the wanted amount leaves room for a block; so it is for delays below 24 |
| CubebFifo.OutputFifo.constructor | src/audio/CubebAPI.cpp:61-103 | an empty queue with room for at least 24 blocks |
| CubebFifo.OutputFifo.DataCallback | src/audio/CubebAPI.cpp:33-59 | fills exactly the requested size with the buffer's beginning and zeros, and removes just what it copied |
| CubebFifo.OutputFifo.FeedBlock | src/audio/CubebAPI.cpp:120-131 | appends the block exactly when queue and block stay below the capacity, and drops it whole otherwise |
| CubebFifo.OutputFifo.NeedAdditionalBlocks | src/audio/CubebAPI.cpp:114-118 | wanted exactly while fewer bytes than the delay's blocks are queued, their number taken as 32 bits |
| CubebFifo.InputFifo.constructor | src/audio/CubebInputAPI.cpp:50-92 | an empty queue with room for at least 24 blocks |
| CubebFifo.InputFifo.DataCallback | src/audio/CubebInputAPI.cpp:32-48 | appends the recorded chunk exactly when queue and chunk stay below the capacity, drops it whole otherwise, and reports all frames either way |
| CubebFifo.InputFifo.ConsumeBlock | src/audio/CubebInputAPI.cpp:103-123 | fills one block with the buffer's beginning and zeros, and removes just what it copied |
| SignatureScan.CompareMasked | src/Cafe/GamePatch.cpp:166-179 | true exactly when all bytes agree under the mask |
| SignatureScan.Locate | src/Cafe/GamePatch.cpp:181-230 | the lowest 4-aligned address from the code area on, below the end less the signature's length, that the path taken accepts, or NULL when there is none; and the lowest match when the mask is absent or its first byte is all ones |
| SignatureScan.FirstDwordFollows | src/Cafe/GamePatch.cpp:188-199 | under a mask whose first dword is all ones, every match begins with the signature's first dword |
| SignatureScan.PathsAgree | src/Cafe/GamePatch.cpp:203-215 | with a mask whose first byte is all ones no prefilter turns a match away, at any address of any memory |
| SignatureScan.ScanIsExact | src/Cafe/GamePatch.cpp:203-215 | over all memories the scan finds the lowest match if and only if the mask's first byte is all ones or there is nowhere to search |
| SignatureScan.WindowIsCode | src/Cafe/GamePatch.cpp:183-185 | the window is every fourth address from the code area up to the end of the code less the signature's length |
| SignatureScan.MissedMatch | src/Cafe/GamePatch.cpp:203-215 | for every other mask, a memory whose match the first-byte path walks past |

## Left out

- Audio devices, COM, DirectSound and the Cubeb library: the device appears only as a consumer or producer that acts whenever it likes. That flushing a voice empties its queue even when stopping failed is assumed of XAudio2, and a submitted buffer is assumed to be accepted.
- Locks: each body that holds a mutex is one atomic step. The XAudio2 functions hold none. Two FeedBlocks on one voice at a time are left out; each voice has one feeder.
- The volume, the channel layouts, the construction parameters of the streams, and CubebAPI's Play and Stop, which do not touch the buffer.
- Overlapping lines and pointers outside a buffer: each edge filter requires that the samples of every line it visits lie in the buffer and are different, which leaves out strides of 0. Edges whose lines overlap each other are specified, but the per-line theorems do not speak of them, apart from BufferTheorems.PairOfStrideOne.
- Strides and positions as 32-bit integers: they are unbounded here.
- DeblockTheorems.LumaBslt4MeetsStandard: speaks of clipping values up to 125 only, because from 126 on the code does not meet the standard; for the same reason DeblockTheorems.ChromaBslt4MeetsStandard and the two mirror theorems of the code stop at 126 and 125.
- The SSSE3 and ARM versions of the filters; only the C bodies are modelled.
- Negative ids passed to the display manager and the buffer manager, which the code uses as indices unchecked.
- Adding a buffer again under its own id, which the buffer manager counts twice: `BufMgr.BufferManager.Add` says so, but the histories leave it out, and with more than 64 counted the other operations would index beyond the arrays. That the counter is 32 bits wide is left out.
- XMA data of 4 GiB and more, searches that read outside the data, the metadata field, and the channel mask and sample rate tables. A search for the last frame that settles on a packet without frames and happens to come back with the right position after 2^32 - 1 steps does not count as agreeing.
- XML text: escaping, entities, line-end normalisation and file input and output. A document is a tree, and Save hands Load the tree it made. Strings with embedded NULs, and numbers too large for what sscanf converts to, where the C standard leaves the result open.
- The rest of CemuConfig's Load and Save, apart from its being around the section: long lists of independent fields.
- HexArrays.GetArray: does not say what the array holds when the text is refused, because the code throws with the bytes before the bad character stored.
- `RPLLoader_GetMaxCodeOffset` and the address of the code area are parameters of the scan. The two-argument `hle_locate`, `hle_scan` and the list of game patches, which are pokes into guest memory.
- ih264_dpb_mgr.h, ih264_cabac_tables.h and the user interface.
