# Recursive semantic chunker of rag-bot, in Dafny

This project models the recursive semantic chunker of the rag-bot
retrieval-augmented chat bot, and proves properties of it. The chunker
cuts a block of text into passages of related sentences:

1. The text is split into sentences after `.`, `!` or `?` followed by
   whitespace. Every sentence record takes its id from a class-level counter.
2. Each sentence gets a window text: itself and up to `overlap` neighbours
   on each side, joined by spaces.
3. The window texts are embedded. Each sentence gets its cosine distance to
   the next sentence; the last sentence repeats the distance before it.
4. `reduce_size` marks every sentence whose distance reaches a percentile
   of the distances. If nothing is marked, it retries with the threshold
   times 0.99. It then assigns running chunk indices, which makes each
   chunk a contiguous run of sentences. Every chunk longer than `max_size`
   is cut again in the same way, with fresh indices past the largest one.
5. `enhance_size` flags the chunks shorter than `min_size`. It merges
   too-small chunks at either end into their inner neighbour. It merges
   too-small chunks inside the list into the neighbour with the smaller
   distance.
6. `reset_chunk_index` renumbers the chunks 1, 2, 3, ... in order of first
   appearance, and sorts the chunk list by the new numbers.
7. `extract_chunks` joins each run of sentences back into one passage.

A separate, smaller piece is also modelled: `PreprocessPDF.preprocess`
turns a document's items into one markdown string. A picture or table
followed by a caption is held back, so the caption comes first.

How the model is built:

- Python lists of records become Dafny sequences of datatype values. Each
  operation that mutates the caller's list returns the new list instead.
  Loops stay loops: each is a method with invariants, proved equal to a
  specification function or against the promised property.
- The id counter, the only state shared across calls, is the class
  `Types.IdCounter`.
- A Python exception is a `Failure` value in a `Result`: `IndexError`,
  `KeyError`, `TypeError`, `UnboundLocal` or `ValueError`. A call that
  recurses or loops forever gives `Diverges`. Preconditions state only what
  the code itself cannot survive.
- Distances are `real`s. The embedder and the cosine distance are function
  parameters. The percentile is `numpy.percentile` with its default linear
  interpolation, over an insertion sort.
- `reset_chunk_index` is the same in both utility modules. `extract_chunks`
  comes in two variants, and both are modelled.
- The two `prepare_data.py` files are both modelled. They differ in three
  ways:
  - how they split the text;
  - whether the overlap is a parameter;
  - the short-circuit for three sentences or fewer.

Behaviours of the code that the proofs bring out:

- **Endless retry.** `_sentences_above_threshold` never returns for a
  one-sentence list. It also never returns when no non-last distance can be
  reached by shrinking the threshold. `ReduceSize` therefore gives
  `Diverges` for a single sentence (`Reduce.OneSentenceNeverMarked`,
  `Reduce.NeverMarked`).
- **Oversized sentence.** `reduce_size` succeeds only if no single sentence
  is longer than `max_size` (`Reduce.ReducedSizes`). The model gives
  `Diverges` when a chunk cannot be cut.
- **Index error on a lone chunk.** On well-formed input, `enhance_size`
  fails with an `IndexError` exactly when the whole text is shorter than
  `min_size`. In that case one too-small chunk is left, and the interior
  pass reads past its end (`Enhance.PassesOutcome`).
- **No chunks left.** With an empty chunk list, `reset_chunk_index` returns
  the bare sentence list. The two-name assignment in `enhance_size` then
  unpacks that list. It succeeds only for exactly two sentences and is
  otherwise a `ValueError`.
- **Fewer than two sentences.** `_compare_vectors` on fewer than two
  sentences reads a variable it never assigned (`UnboundLocal`). The PDF
  pipeline has no short-circuit, so a one-sentence document reaches this.
- **Boundary distance.** In `_handle_boundary_chunks`, the distance
  "copied" when the last chunk is merged is assigned to itself. The merged
  chunk therefore keeps its own distance, and the model does the same.

## Model

| member | source | states |
|---|---|---|
| Types.IdCounter.constructor | src/models/datatypes.py:20 | a fresh counter starts at 0 |
| Types.IdCounter.Next | src/models/datatypes.py:22-25 | the counter grows by exactly one and the id taken is its new value |
| Types.NewSentence | src/models/datatypes.py:16-25 | a new sentence carries the next counter value, its text and no chunk index |
| Types.NewCombined | src/models/datatypes.py:44-53 | a new combined sentence moves only its own counter and starts with no embedding, no distance and no mark |
| Types.NewSentences | src/models/datatypes.py:20-25 | sentences created one after another get consecutive, strictly increasing ids continuing the counter |
| Text.Strip | src/utils/chunk_utils.py:61 | the stripped string is a slice of the input with only whitespace cut off either end, and it neither starts nor ends with whitespace |
| Text.SpaceAfterEachThenJoin | src/upload_pdfs/handle_data/text/chunking/recursive_semantic/operations/prepare_data.py:58-62 | accumulating each leading neighbour followed by a space, then the sentence, equals the space-join of all of them |
| Text.JoinThenSpaceBeforeEach | src/upload_pdfs/handle_data/text/chunking/recursive_semantic/operations/prepare_data.py:62-66 | appending a space and each trailing neighbour to a space-join gives the space-join of the longer list |
| Text.SpaceBeforeEachIsJoin | src/utils/chunk_utils.py:64 | accumulating a space before each sentence gives one space followed by their space-join |
| Splitter.ReplaceNewlines | src/upload_pdfs/handle_data/text/chunking/recursive_semantic/operations/prepare_data.py:39 | the result has the same length, no newline, a space where each newline was and every other character unchanged |
| Splitter.SplitReconstructs | src/upload_pdfs/handle_data/text/chunking/recursive_semantic/operations/prepare_data.py:40 | putting the removed separators back between the pieces gives the text again, and every separator is a non-empty whitespace run |
| Splitter.PiecesEndInPunct | src/upload_pdfs/handle_data/text/chunking/recursive_semantic/operations/prepare_data.py:40 | every piece but the last is non-empty and ends in `.`, `!` or `?` |
| Splitter.NoCutInsidePiece | src/upload_pdfs/handle_data/text/chunking/recursive_semantic/operations/prepare_data.py:40 | no piece contains a mark followed by whitespace, so the cuts are all the matches |
| Splitter.PiecesStartWithoutSpace | src/upload_pdfs/handle_data/text/chunking/recursive_semantic/operations/prepare_data.py:40 | no piece after the first starts with whitespace: each match takes the whole whitespace run |
| Splitter.FirstPieceIsPrefix | src/upload_pdfs/handle_data/text/chunking/recursive_semantic/operations/prepare_data.py:40 | the first piece is a prefix of the text |
| Splitter.TrailingCutGivesEmptyPiece | src/upload_pdfs/handle_data/text/chunking/recursive_semantic/operations/prepare_data.py:40 | text ending in a mark and then only whitespace gives an empty last piece, as `re.split` does |
| Splitter.PreprocessData | src/upload_pdfs/handle_data/text/chunking/recursive_semantic/operations/prepare_data.py:29-42 | one new sentence per piece of the newline-free text, in order, with ids continuing the counter |
| Splitter.LoadPdfSentences | src/upload_pdfs/data_extraction/text/chunking/prepare_data.py:36-41 | the page texts are concatenated, newlines become spaces, and one new sentence is made per piece |
| Windower.WindowText | src/upload_pdfs/handle_data/text/chunking/recursive_semantic/operations/prepare_data.py:55-66 | the two accumulator loops build the space-join of the clipped window around sentence `i` |
| Windower.WindowAroundSentence | src/upload_pdfs/data_extraction/text/chunking/prepare_data.py:61-69 | the window is the leading neighbours each followed by a space, the sentence, and the trailing neighbours each preceded by a space |
| Windower.NoOverlapWindowIsSentence | src/upload_pdfs/data_extraction/text/chunking/prepare_data.py:61-69 | with overlap 0 or less the window is the sentence alone |
| Windower.OverlapOneWindow | src/upload_pdfs/handle_data/text/chunking/recursive_semantic/operations/prepare_data.py:55-66 | with overlap 1 a sentence is framed by its existing neighbours only |
| Windower.ConnectSentences | src/upload_pdfs/data_extraction/text/chunking/prepare_data.py:43-79 | one new combined sentence per sentence, in order, keeping its text and chunk index, with the window as combined text |
| Distances.ApplyEmbeddings | src/upload_pdfs/handle_data/text/chunking/recursive_semantic/operations/prepare_data.py:78-99 | every record, and nothing else of it, gets the embedding of its own window text |
| Distances.CompareVectors | src/upload_pdfs/handle_data/text/chunking/recursive_semantic/operations/prepare_data.py:101-123 | fails with UnboundLocal exactly for fewer than two sentences; otherwise each sentence gets the distance to the next, the last repeats the one before, and all have a distance |
| Distances.WindowEmbedMeasure | src/upload_pdfs/data_extraction/text/chunking/prepare_data.py:147-155 | fails with UnboundLocal exactly for fewer than two sentences; otherwise one record per sentence keeping its text and chunk index, with its window, the embedding of that window, the distance from its embedding to the next one, and for the last record the distance of the one before; the records take consecutive ids from the counter, which advances once per sentence |
| Distances.PrepareText | src/upload_pdfs/handle_data/text/chunking/recursive_semantic/operations/prepare_data.py:125-158 | three pieces or fewer give one record with their space-join; more give one record per piece with its overlap-1 window, that window's embedding, the distance to the next embedding, and the last repeating the distance before it, with consecutive ids from the counter; the sentence counter advances once per piece, the record counter once or once per piece |
| Distances.PreparePdf | src/upload_pdfs/data_extraction/text/chunking/prepare_data.py:128-157 | fails exactly when the document splits into one piece; otherwise one record per piece with its window for the given overlap, that window's embedding, the distance to the next embedding, and the last repeating the distance before it, with consecutive ids; both counters advance once per piece |
| Percentile.SortRealsSorts | src/operations/chunk_operations/reduce_size.py:30 | the sorted values are in ascending order and a permutation of the input |
| Percentile.Interpolate | src/operations/chunk_operations/reduce_size.py:30 | the linear interpolation lies between the smallest and largest sorted value |
| Percentile.PercentileOf | src/operations/chunk_operations/reduce_size.py:28-30 | ValueError for a percentage outside 0..100, TypeError for a missing distance, otherwise a value between two of the distances |
| Percentile.CalculatePercentile | src/operations/chunk_operations/reduce_size.py:25-31 | None exactly for an empty list; otherwise the percentile of the distances alone, between the least and the greatest of them |
| Percentile.PercentileZeroIsMin | src/operations/chunk_operations/reduce_size.py:30 | the 0th percentile is at most every distance |
| Percentile.PercentileHundredIsMax | src/operations/chunk_operations/reduce_size.py:30 | the 100th percentile is at least every distance |
| Extract.ExtractChunksPlain | src/utils/chunk_utils.py:42-70 | an empty list is an IndexError; otherwise one stripped passage per maximal run of equal chunk index, in order |
| Extract.ExtractChunks | src/upload_pdfs/handle_data/text/chunking/recursive_semantic/operations/utils.py:46-77 | the same, except that a first sentence with chunk index None or 0 returns the window texts unchanged |
| Extract.RunsCover | src/utils/chunk_utils.py:58-68 | the runs laid end to end are exactly the sentence list |
| Extract.RunsAreMaximal | src/utils/chunk_utils.py:58-65 | every run is non-empty with one chunk index, and neighbouring runs have different indices |
| Partition.PartitionSizes | src/operations/chunk_operations/reduce_size.py:88-101 | when chunks partition the sentences, the chunk sizes add up to the total sentence length |
| Partition.PartitionRuns | src/operations/chunk_operations/reduce_size.py:88-101 | in a partition with distinct indices, a chunk is a contiguous run of sentences |
| Partition.BlockIsIndexClass | src/operations/chunk_operations/reduce_size.py:140-143 | in a partition with distinct indices, the sentences carrying a chunk's index are exactly its block |
| Partition.FewerBlocksThanSentences | src/operations/chunk_operations/reduce_size.py:88-101 | a partition never has more chunks than sentences |
| Partition.PartitionReplace | src/operations/chunk_operations/reduce_size.py:157-162 | replacing one block by a partition of the same sentences keeps a partition, with the chunk replaced in place by the new ones; when the new list is as long as the block, every old bound stays a bound |
| Partition.ReplaceRefines | src/operations/chunk_operations/reduce_size.py:157-162 | splicing new bounds over one block, keeping the bounds before it and ending on the block's end, keeps every old bound |
| Partition.PartitionMerge | src/upload_pdfs/handle_data/text/chunking/recursive_semantic/operations/enhance_size.py:45-59 | fusing two neighbouring blocks into one chunk keeps a partition |
| Reindex.FirstsMembers | src/upload_pdfs/handle_data/text/chunking/recursive_semantic/operations/utils.py:25-33 | the first-appearance list holds every chunk index of the sentences exactly once |
| Reindex.RenumberSentences | src/upload_pdfs/handle_data/text/chunking/recursive_semantic/operations/utils.py:25-33 | the table holds exactly the indices that occur, maps each to its rank of first appearance, and every sentence is relabelled through it |
| Reindex.SortByIndex | src/upload_pdfs/handle_data/text/chunking/recursive_semantic/operations/utils.py:39 | the chunk list comes back sorted by index, as a permutation of the input, and stable: the chunks with any one index keep their relative order |
| Reindex.InsertionPoint | src/upload_pdfs/handle_data/text/chunking/recursive_semantic/operations/utils.py:39 | a stable insertion goes after every chunk whose index is not above its own |
| Reindex.ResetChunkIndex | src/upload_pdfs/handle_data/text/chunking/recursive_semantic/operations/utils.py:10-43 | no chunks gives the renumbered sentences alone; an index no sentence carries is a KeyError; otherwise the renumbered sentences and the relabelled chunks stably sorted by their new index, chunks sharing an index in their original order |
| Reindex.SortedStableUnique | src/upload_pdfs/handle_data/text/chunking/recursive_semantic/operations/utils.py:39 | a stable sort by index has one possible result: two sorted lists with the same chunks, in the same order, for every index are equal |
| Reindex.ResetOfUnique | src/upload_pdfs/handle_data/text/chunking/recursive_semantic/operations/utils.py:25-41 | the sentences and chunks that the reset gives are determined by its input |
| Reindex.RenumberedFirsts | src/upload_pdfs/handle_data/text/chunking/recursive_semantic/operations/utils.py:25-33 | after renumbering the indices first appear as 1, 2, ..., K in that order: dense and in order of appearance |
| Reindex.RenumberBounded | src/upload_pdfs/handle_data/text/chunking/recursive_semantic/operations/utils.py:25-33 | every new index lies in 1..K, K being the number of distinct old indices |
| Reindex.RenumberCovers | src/upload_pdfs/handle_data/text/chunking/recursive_semantic/operations/utils.py:25-33 | every number in 1..K is carried by some sentence |
| Reindex.RenumberInjective | src/upload_pdfs/handle_data/text/chunking/recursive_semantic/operations/utils.py:28-33 | two sentences share a new index exactly when they shared an old one |
| Reindex.ResetIdempotent | src/utils/chunk_utils.py:21-29 | renumbering a renumbered list changes nothing |
| Reindex.PartitionFirsts | src/upload_pdfs/handle_data/text/chunking/recursive_semantic/operations/utils.py:28-33 | for a partition with distinct indices, the indices first appear in chunk order |
| Reindex.RenumberPartition | src/upload_pdfs/handle_data/text/chunking/recursive_semantic/operations/utils.py:28-37 | renumbering a partition numbers chunk k as k + 1 and keeps every block and size |
| Reindex.ResetOfPartition | src/upload_pdfs/handle_data/text/chunking/recursive_semantic/operations/utils.py:35-41 | after a pass that leaves a partition, no chunk lookup fails and the sorted relabelled chunks are the partition's chunks numbered in sentence order |
| Reduce.MaxIndex | src/operations/chunk_operations/reduce_size.py:151 | the largest chunk index: no index is above it and some chunk has it |
| Reduce.MarkAll | src/operations/chunk_operations/reduce_size.py:48-55 | each sentence is marked exactly when its distance reaches the threshold and it is not the last; the check list has a mark exactly then |
| Reduce.SameDistancesSameMarks | src/operations/chunk_operations/reduce_size.py:48-57 | whether any sentence gets marked depends on the distances alone |
| Reduce.MarkAgain | src/operations/chunk_operations/reduce_size.py:48-55 | marking leaves the distances and replaces any earlier marks |
| Reduce.RetryShrinksSlack | src/operations/chunk_operations/reduce_size.py:57-60 | a fruitless retry keeps the target reachable and uses up one of finitely many retries |
| Reduce.NeverMarked | src/operations/chunk_operations/reduce_size.py:57-60 | when no non-last distance can be reached, no retry ever marks anything, so the recursion never ends |
| Reduce.OneSentenceNeverMarked | src/operations/chunk_operations/reduce_size.py:48-60 | a one-sentence list is never marked, whatever the threshold |
| Reduce.SentencesAboveThreshold | src/operations/chunk_operations/reduce_size.py:33-62 | TypeError for a missing threshold or distance; otherwise the marks under the first retried threshold that marks some sentence |
| Reduce.AssignChunks | src/operations/chunk_operations/reduce_size.py:64-103 | every sentence gets the start index (0 when falsy) plus the chunks closed before it; one chunk per run, sized by its texts, too big exactly over the maximum |
| Reduce.ClosedIsMarked | src/operations/chunk_operations/reduce_size.py:92-101 | the chunks closed before a sentence are the marked sentences before it |
| Reduce.ChunkCount | src/operations/chunk_operations/reduce_size.py:92-101 | there is one chunk per marked sentence before the last, plus the final one |
| Reduce.ClosedMonotone | src/operations/chunk_operations/reduce_size.py:88-101 | the running index never decreases along the list |
| Reduce.ClosedAtLeastTwo | src/operations/chunk_operations/reduce_size.py:92-101 | one marked sentence before the last gives at least two chunks |
| Reduce.MembersExactly | src/operations/chunk_operations/reduce_size.py:140-143 | the collected positions are exactly those of the sentences with the index, in increasing order |
| Reduce.CollectChunk | src/operations/chunk_operations/reduce_size.py:140-143 | the filter loop gathers the sentences with the chunk's index and their positions |
| Reduce.WriteBack | src/operations/chunk_operations/reduce_size.py:160-162 | popping and reinserting at each collected position replaces exactly those sentences |
| Reduce.MoreChunks | src/operations/chunk_operations/reduce_size.py:57-62 | the marks that end the relaxation cut a chunk into at least two new chunks |
| Reduce.CutChunk | src/operations/chunk_operations/reduce_size.py:145-156 | the threshold is the sub-list's own percentile; Diverges exactly when no retry from it can mark a sentence; otherwise the marks cut the sub-list into fresh chunks numbered from the next index |
| Reduce.RecutFits | src/operations/chunk_operations/reduce_size.py:88-101 | a sub-list whose total length is within the maximum is cut into chunks that all fit and none of which is flagged too big |
| Reduce.SplitChunk | src/operations/chunk_operations/reduce_size.py:136-162 | Diverges exactly when no retry from the percentile of the chunk's own sentences can mark one of them; otherwise the chunk is dropped, its re-cut pieces numbered from the largest index plus one are appended, the rest keep their order, and only the chunk's own sentences are overwritten, in order, by the re-cut ones |
| Reduce.KeptUnlessTooBig | src/operations/chunk_operations/reduce_size.py:141-158 | removing a chunk that is too big and appending its pieces keeps every chunk that was not too big |
| Reduce.SplitAll | src/operations/chunk_operations/reduce_size.py:133-165 | with no chunk too big it returns its input and bounds unchanged; otherwise Diverges, or every chunk checked, the chunks a partition of the same sentences, none over the maximum, every old bound kept, and every chunk that was not too big still present |
| Reduce.ReduceSize | src/operations/chunk_operations/reduce_size.py:105-171 | empty list or missing distance is TypeError; bad percentage is ValueError; Diverges when no retry from the top-level percentile can mark a sentence, one sentence included; otherwise the first cut partitions the sentences into fresh chunks from 0; when none of them is over the maximum the call succeeds with exactly those blocks over the first cut's sentences renumbered; the result is success or Diverges, and success is a partition of the same sentences into chunks 1..n, none over the maximum, whose blocks only cut those of the first cut further |
| Reduce.Renumber | src/operations/chunk_operations/reduce_size.py:167-169 | once every chunk fits, the index reset succeeds, renumbers the sentences and numbers the chunks 1..n in text order over the same blocks |
| Reduce.ReducedSizes | src/operations/chunk_operations/reduce_size.py:88-101 | the reduced chunk sizes add up to the text length, so success needs every sentence within the maximum |
| Reduce.ReducedNumbering | src/operations/chunk_operations/reduce_size.py:167-169 | every reduced sentence carries an index in 1..n, non-decreasing along the list |
| Enhance.LastDistance | src/upload_pdfs/handle_data/text/chunking/recursive_semantic/operations/enhance_size.py:135-138 | the table entry for a key is absent exactly when no sentence carries the key, and otherwise the distance of a sentence carrying it |
| Enhance.LastDistanceAt | src/upload_pdfs/handle_data/text/chunking/recursive_semantic/operations/enhance_size.py:137-138 | the entry for a key is the distance of the last sentence carrying it |
| Enhance.DistanceTable | src/upload_pdfs/handle_data/text/chunking/recursive_semantic/operations/enhance_size.py:135-138 | the dictionary has exactly the carried keys, each mapped to the distance of its last sentence |
| Enhance.FlagChunks | src/upload_pdfs/handle_data/text/chunking/recursive_semantic/operations/enhance_size.py:140-142 | KeyError exactly when some chunk index is carried by no sentence; otherwise each chunk is too small exactly below the minimum and takes its table distance |
| Enhance.FlaggedUnique | src/upload_pdfs/handle_data/text/chunking/recursive_semantic/operations/enhance_size.py:135-142 | the flagged chunks are determined by the sentences, the chunks and the minimum |
| Enhance.Relabel | src/upload_pdfs/handle_data/text/chunking/recursive_semantic/operations/enhance_size.py:46-48 | the loop moves exactly the sentences of one chunk to another |
| Enhance.Absorbed | src/upload_pdfs/handle_data/text/chunking/recursive_semantic/operations/enhance_size.py:50-57 | the neighbour keeps its index and adds the sizes; it stays flagged only if it was flagged and is still below the minimum |
| Enhance.MergedSizes | src/upload_pdfs/handle_data/text/chunking/recursive_semantic/operations/enhance_size.py:103 | a merge keeps the total size of the chunks |
| Enhance.Merge | src/upload_pdfs/handle_data/text/chunking/recursive_semantic/operations/enhance_size.py:97-110 | one merge relabels the absorbed chunk's sentences, grows the neighbour and pops the chunk |
| Enhance.MovedFused | src/upload_pdfs/handle_data/text/chunking/recursive_semantic/operations/enhance_size.py:97-101 | relabelling a chunk fuses it into another and cuts none |
| Enhance.MergeTidy | src/upload_pdfs/handle_data/text/chunking/recursive_semantic/operations/enhance_size.py:97-110 | merging two neighbours keeps a partition with distinct indices and flags that match sizes |
| Enhance.BoundaryPass | src/upload_pdfs/handle_data/text/chunking/recursive_semantic/operations/enhance_size.py:13-65 | the loop computes the recursive boundary pass |
| Enhance.BoundaryShape | src/upload_pdfs/handle_data/text/chunking/recursive_semantic/operations/enhance_size.py:31-63 | the pass keeps at least one chunk, stops with one chunk or two ends not too small, keeps distances, and changes nothing when nothing is too small |
| Enhance.BoundaryTidy | src/upload_pdfs/handle_data/text/chunking/recursive_semantic/operations/enhance_size.py:38-61 | the boundary pass keeps the partition and only fuses chunks |
| Enhance.InteriorPass | src/upload_pdfs/handle_data/text/chunking/recursive_semantic/operations/enhance_size.py:67-115 | the loop computes the recursive interior pass, with its IndexError and TypeError cases |
| Enhance.InteriorIdle | src/upload_pdfs/handle_data/text/chunking/recursive_semantic/operations/enhance_size.py:86-113 | with nothing too small from the position on, the interior pass changes nothing |
| Enhance.InteriorSettles | src/upload_pdfs/handle_data/text/chunking/recursive_semantic/operations/enhance_size.py:86-113 | from a ready state the pass succeeds, leaves two or more chunks none too small, only fuses chunks and keeps the partition |
| Enhance.FlaggedTidy | src/upload_pdfs/handle_data/text/chunking/recursive_semantic/operations/enhance_size.py:140-142 | flagging keeps the partition and gives every chunk a distance and a flag matching its size |
| Enhance.PassesOutcome | src/upload_pdfs/handle_data/text/chunking/recursive_semantic/operations/enhance_size.py:144-149 | the two passes fail with IndexError exactly when the whole text is below the minimum; otherwise nothing is too small; and already-large chunks are left alone |
| Enhance.FlagAndMerge | src/upload_pdfs/handle_data/text/chunking/recursive_semantic/operations/enhance_size.py:135-149 | KeyError for an unknown index; otherwise the result is exactly the boundary pass then the interior pass, which merges a too-small chunk into the neighbour with the lower distance (ES:73-75), over the flagged chunks; on well-formed input the pass outcome above |
| Enhance.PartitionCarried | src/upload_pdfs/handle_data/text/chunking/recursive_semantic/operations/enhance_size.py:140-142 | every chunk index of a partition is carried by a sentence, so the lookup cannot fail |
| Enhance.GrownAfterReset | src/upload_pdfs/handle_data/text/chunking/recursive_semantic/operations/enhance_size.py:150-153 | renumbering after both passes gives chunks 1..n, each at least the minimum, partitioning the fused sentences |
| Enhance.EnhanceSize | src/upload_pdfs/handle_data/text/chunking/recursive_semantic/operations/enhance_size.py:117-153 | KeyError for an unknown index; otherwise an error of the two passes is passed on and a success is the reset of their result over the flagged chunks; no chunks unpacks exactly two sentences or is a ValueError; on well-formed input IndexError exactly below the minimum total, else every chunk reaches the minimum |
| Markdown.EmitItem | src/upload_pdfs/handle_data/preprocess_pdf.py:47-77 | a figure, header or list item replaces the pending piece, a caption goes in front of it, and other text is appended; only a figure sets the hold flag |
| Markdown.EmitIsStep | src/upload_pdfs/handle_data/preprocess_pdf.py:51-81 | within the loop, the flag after item i is set exactly when the item is a figure followed by a caption, and the item's piece goes in front of what was pending |
| Markdown.Preprocess | src/upload_pdfs/handle_data/preprocess_pdf.py:42-83 | the markdown is every item's piece in document order, except that a held figure follows its caption |
| Markdown.OrderIsPermutation | src/upload_pdfs/handle_data/preprocess_pdf.py:42-83 | every item reaches the markdown exactly once |
| Markdown.OrderSwapsOnlyCaptions | src/upload_pdfs/handle_data/preprocess_pdf.py:51-81 | an item moves at most one place, and only a figure and the caption right after it trade places |
| Markdown.InOrderWithoutHeldFigures | src/upload_pdfs/handle_data/preprocess_pdf.py:79-81 | without a figure followed by a caption, the items come in document order |

## Left out

- Loading the PDF with PyPDF2 and extracting document items with docling. The page texts and the item list are parameters.
- The sentence-transformer embedder and scikit-learn's cosine distance. They are function parameters returning `real`s. Floating-point rounding is not modelled: distances, thresholds and the 0.99 factor are exact reals.
- The picture and table handlers of `preprocess`, which call a vision model. They are function parameters and are taken to be deterministic.
- Docling's item labels are modelled as the enumeration `Markdown.Label`. Every label other than the six the code tests is `Other`.
- `visualize_chunks`, `sentences_embedding`, the `__repr__` methods, the markdown splitter and the pipelines that chain the steps. So are storage, the database, the agent and the web app.
- Aliasing and mutation in place: the Python code changes the caller's records and lists. Each operation here returns new sequences, so effects seen through other references to the same records are not modelled.
- Python's own limit on recursion depth. A recursion that never ends is reported as `Diverges`, never as a `RecursionError`.
- Reduce.SentencesAboveThreshold: when the threshold is defined and every distance is measured, the model requires that some retry can mark a sentence, because the source would recurse without end. `Reduce.NeverMarked` states the converse, and `Reduce.CutChunk` and `Reduce.ReduceSize` return `Diverges` instead of calling it in that case.
- Reduce.ReduceSize: when the first cut leaves a chunk over the maximum, the contract does not say which inputs a later split makes diverge; it states "success or Diverges" there, and `Reduce.SplitChunk` gives the condition for each split.
- Reduce.SplitAll: when some chunk is too big, the contract does not say which inputs make a split diverge; `Reduce.SplitChunk` states it for each split.
- Enhance.EnhanceSize and Enhance.FlagAndMerge: an index of a chunk is looked up by value. Inputs that are not well formed (chunks that do not partition the sentences, shared indices, missing distances) get only the KeyError and empty-list cases.
- The `is_above_percentile` default of None is modelled as `false`. The code only reads it as a truth value.
