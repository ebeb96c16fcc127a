# Mass gender prediction for Indonesian names: a Dafny model of its core

The tool is a single Streamlit page (`app.py`). A user uploads a spreadsheet. The
page detects the column that holds full names, sends the names to a remote
gender classifier in batches of 5000, and attaches the predicted labels and
confidence scores to the data as `pred_gender` and `confidence_score`. It then
offers the enriched sheet for download and shows a pie chart of the
male/female distribution.

This project models the three parts of `app.py` that are logic rather than UI:
name-column detection, the chunked batch-submission loop, and label
normalisation with the distribution count. It proves properties about them.

- `Columns` (columns.dfy): `find_name_column`. It finds the first column label
  whose trimmed, lower-cased form is `nama` or `name`. `Strip` and `Lower` model
  Python's `str.strip()` and `str.lower()`.
- `Batching` (batching.dfy): the batch loop. `TotalBatches` is
  `math.ceil(N / batch_size)`, and `Chunk` is the slice
  `[i * size, min((i + 1) * size, N))`. `SubmitAll` is the `for` loop, written
  imperatively. Its two accumulators grow by `extend`, and it returns the chunks
  it sent and the progress events it emitted. Its postcondition ties the result to
  the specification functions `LabelsUpTo`, `ScoresUpTo`, `ChunksUpTo` and
  `ProgressUpTo`, which the lemmas then describe.
  The remote predictor is a parameter `submit: (nat, seq<string>) -> Reply<C>`.
  It takes the call number and the chunk, and it either answers with two
  sequences or fails. Confidence scores have an opaque type `C`.
- `Labels` (labels.dfy): the `replace({'M': 'Laki-laki', 'F': 'Perempuan'})` of
  the label column, the `isin` filter, and `value_counts`.
- `Frames` (frames.dfy): the DataFrame as a class `Frame` whose methods change
  its columns in place. `SetColumn` is `df[name] = values`. As in pandas, it
  refuses a list whose length differs from the number of rows.
- `Pipeline` (pipeline.dfy): the run behind the prediction button
  (app.py:79-176). It reads the names, runs the loop, attaches the two columns,
  exports, normalises in place and counts. Any failure returns a `Failure`, the
  counterpart of the `except` at app.py:175.

Three facts about the code shape the model:
- The code never checks that an answer has as many entries as its chunk
  (app.py:109-113). Equal length is therefore a precondition of the alignment
  lemmas (`RepliesFit`), not a check in `SubmitAll`. The only length check is
  pandas' own, when the whole lists are assigned at app.py:124-125.
- The two assignments at app.py:124-125 are separate statements. If the labels
  fit and the scores do not, `pred_gender` is already attached when the
  exception is raised. `Pipeline.PredictGenders` states this case exactly. The
  frame stays unchanged only when a call fails or when the labels do not fit.
- The spreadsheet is written at app.py:138, before the labels are normalised at
  app.py:150. So the exported table holds the raw labels; see
  `Pipeline.ExportedLabelsAreRaw`.

## Model

| member | source | states |
|---|---|---|
| `Columns.FirstWhere` | app.py:31-34 | The loop with early return gives the first element, in order, that satisfies the test, and gives `None` exactly when no element does. |
| `Columns.FindNameColumn` | app.py:25-34 | The detected column is an element of the input whose trimmed lower-case form is `nama` or `name`, and no earlier column matches. The result is `None` exactly when no column matches. |
| `Columns.FirstWhereAppend` | app.py:31-33 | On a concatenation of lists, the search returns the first part's match if the first part has one, and otherwise the second part's. |
| `Columns.FindNameColumnAppend` | app.py:31-33 | Columns after the first match never change detection, and columns that do not match are skipped. |
| `Columns.StripSpec` | app.py:32 | `strip()` returns an infix of the label. Everything it removed is white space, and what remains neither starts nor ends with white space. |
| `Columns.Strip` | app.py:32 | `strip()`; its contract is `Columns.StripSpec`. |
| `Columns.Lower` | app.py:32 | `lower()` keeps the length and leaves no upper-case letter. Each upper-case letter becomes the lower-case letter at the same place in the alphabet, and every other character is kept. |
| `Columns.LowerIgnoresCase` | app.py:32 | Texts that differ only in the case of their letters lower-case to the same text. |
| `Columns.LowerIdempotent` | app.py:32 | Lower-casing twice is lower-casing once. |
| `Columns.TrimStartIgnoresCase` | app.py:32 | Removing leading white space from two texts that differ only in case leaves two texts that differ only in case. |
| `Columns.TrimEndIgnoresCase` | app.py:32 | The same for trailing white space. |
| `Columns.NameLabelIgnoresCase` | app.py:27-32 | Two labels that differ only in case are both name labels or neither, because `strip()` never removes a letter. |
| `Columns.KeywordsMatchIgnoringCaseAndSpace` | app.py:27-32 | "Name", "NAMA" and " nama\t" all count as name labels. |
| `Columns.OtherLabelsDoNotMatch` | app.py:30-32 | "ID", "Score" and "Full_Name" are not name labels. |
| `Columns.DetectsNameAmongOthers` | app.py:25-34 | In the columns "ID", "Name", "Score", the column "Name" is detected. |
| `Columns.RejectsPartialMatch` | app.py:25-34 | In the columns "ID", "Full_Name", "Score", nothing is detected. |
| `Batching.TotalBatches` | app.py:86-87 | The number of batches is the ceiling of N / size: `t * size >= N`, and `(t - 1) * size < N` when `t > 0`. |
| `Batching.NoBatchesForNoNames` | app.py:87-100 | There are zero batches exactly when there are no names. |
| `Batching.Chunk` | app.py:102-104 | The slice `names[start_idx:end_idx]` of batch `i`; its contract is stated by `ChunkInRange`, `ChunkSizes`, `ChunksAdjacent`, `ChunksDisjoint` and `ConcatChunksUpTo`. |
| `Batching.ChunkInRange` | app.py:102-104 | Each slice's start `i * size` lies inside the input, and its end lies after the start and at most at N. |
| `Batching.ChunkSizes` | app.py:102-104 | Every chunk is non-empty with at most `size` names. Every chunk but the last has exactly `size` names, and the last one ends at N. |
| `Batching.ChunksAdjacent` | app.py:102-103 | Chunk `i` ends exactly where chunk `i + 1` starts, so there is no gap and no overlap. |
| `Batching.ChunksDisjoint` | app.py:100-104 | The ranges of two different chunks do not overlap. |
| `Batching.ConcatChunksUpTo` | app.py:100-104 | The first `k` chunks, joined in order, are the first `min(k * size, N)` names. |
| `Batching.ChunksCoverInput` | app.py:82-104 | All chunks, joined in order, give back the whole name list. |
| `Batching.TwelveThousandNames` | app.py:86-104 | 12000 names give three chunks, of 5000, 5000 and 2000 names. |
| `Batching.LabelsUpTo` | app.py:93-112 | The labels of the first `k` answers, joined in call order, as `all_pred_genders` holds them after `k` rounds; its contract is stated by `AccumulatedLengths`, `LabelLandsAfterEarlierOnes` and `Alignment`. |
| `Batching.ScoresUpTo` | app.py:94-113 | The scores of the first `k` answers, joined in call order, as `all_confidence` holds them after `k` rounds; its contract is stated by `AccumulatedLengths`, `ScoreLandsAfterEarlierOnes` and `Alignment`. |
| `Batching.SubmitAll` | app.py:93-116 | The run finishes exactly when every call answers. It then returns the answers' labels and scores joined in call order, has sent every chunk once in order, and has emitted one progress event per batch. If call `k` fails, every earlier call answered, chunks 0 to `k` were sent and no later one, the failure gives the range `[k * size, min((k + 1) * size, N))`, and `k` progress events were emitted. |
| `Batching.AccumulatedLengths` | app.py:93-113 | When each answer is as long as its chunk, after `k` calls both accumulators hold `min(k * size, N)` entries. |
| `Batching.LabelLandsAfterEarlierOnes` | app.py:112 | Entry `p` of answer `i` sits right after the labels of the earlier answers, and later `extend`s do not move it. |
| `Batching.ScoreLandsAfterEarlierOnes` | app.py:113 | The same holds for the confidence scores. |
| `Batching.AccumulatedAt` | app.py:102-113 | When answers fit their chunks, entry `p` of answer `i` is at position `i * size + p` of both accumulators, the position of the name it was computed for. |
| `Batching.Alignment` | app.py:100-113 | When answers fit their chunks, entry `j` of each accumulator comes from the answer to chunk `j / size`, at the offset where that chunk holds name `j`. |
| `Batching.CompletedRunCoversInput` | app.py:100-113 | When answers fit their chunks, a completed run accumulates exactly one label and one score per name. |
| `Batching.BatchingIsTransparent` | app.py:100-113 | With a predictor that treats each name on its own, the accumulators equal the whole list classified in one piece, for any chunk size. |
| `Batching.ProgressCountsUp` | app.py:116 | Progress event `i` is `(i + 1, total)`. The events strictly increase, and an event reaches `total / total` exactly at the last batch. |
| `Labels.Normalize` | app.py:150 | The `replace` of the codes keeps the number of labels; what it does position by position is `NormalizeAt`, and `NormalizeIdempotent` and `NormalizedCounts` state the rest. |
| `Labels.KeepGenders` | app.py:153 | The `isin` filter keeps at most as many labels as it is given; `KeepGendersCounts` and `KeepGendersOnlyGenders` state which. |
| `Labels.ValueCounts` | app.py:154 | `value_counts()`: one key per value that occurs, with its number of occurrences; stated by `DistributionCounts` and `CountPositive`. |
| `Labels.Distribution` | app.py:153-154 | `value_counts()` of the filtered labels; its contract is stated by `DistributionCounts`, `DistributionTotal` and `DistributionEmpty`. |
| `Labels.NormalizeAt` | app.py:150 | `M` becomes `Laki-laki` and `F` becomes `Perempuan`. Every other label stays the same, at the same position. |
| `Labels.NormalizeIdempotent` | app.py:150 | Normalising twice gives the same result as normalising once. |
| `Labels.KeepGendersCounts` | app.py:153 | The `isin` filter keeps every occurrence of the two display labels and no occurrence of any other value. |
| `Labels.KeepGendersOnlyGenders` | app.py:153 | The rows kept by the filter are exactly the rows with one of the two display labels. |
| `Labels.CountPositive` | app.py:154 | A value is counted at least once exactly when it occurs. |
| `Labels.DistributionCounts` | app.py:153-154 | The distribution has a key exactly for each display label that occurs, and its count equals that label's number of occurrences. |
| `Labels.DistributionTotal` | app.py:153-154 | The only keys are the two display labels, and the two counts add up to the number of qualifying rows. |
| `Labels.DistributionEmpty` | app.py:153-156 | The distribution is empty, so the chart is skipped, exactly when no row has a display label. |
| `Labels.NormalizedCounts` | app.py:150-154 | After normalisation, `Laki-laki` is counted once for each raw `M` and each raw `Laki-laki`, and likewise for `Perempuan` with `F`. |
| `Labels.NormalizeExample` | app.py:150 | `["M","F","M","X"]` normalises to `["Laki-laki","Perempuan","Laki-laki","X"]`. |
| `Labels.DistributionExample` | app.py:153-154 | In that normalised list, `Laki-laki` is counted 2 times and `Perempuan` 1 time, and `X` is left out. |
| `Frames.WithColumn` | app.py:124-125 | Assigning a column of the right length keeps the frame well formed: distinct columns, one cell per row each. |
| `Frames.WithColumnKeepsTheRest` | app.py:124-125 | An assignment keeps the row count and the column order, and replaces an existing column in place or appends a new one at the end. It changes no other column. |
| `Frames.Frame.Get` | app.py:82 | `df[name]` holds one cell per row. |
| `Frames.Frame.SetColumn` | app.py:124-125 | `df[name] = values` succeeds exactly when the lengths agree, and then yields `WithColumn` of the old frame. If it fails, the frame is unchanged. |
| `Frames.Frame.constructor` | app.py:62 | A frame starts as the table that was read. |
| `Pipeline.NamesOf` | app.py:82 | The name list has one entry per row, and entry `j` is the text of row `j`'s cell. |
| `Pipeline.ReplaceCodes` | app.py:150 | The `replace` on the column keeps its length; on a column of labels it is `Normalize` (`ReplaceCodesOnTexts`). |
| `Pipeline.TextLabels` | app.py:153 | The labels a column offers to the `isin` filter are at most as many as its cells; for a column of labels they are the labels themselves (`TextLabelsOfTexts`). |
| `Pipeline.ReplaceCodesOnTexts` | app.py:150 | The column-wise `replace` on a label column is `Normalize` on the labels. |
| `Pipeline.TextLabelsOfTexts` | app.py:153 | A column of labels passes its labels, unchanged, to the `isin` filter. |
| `Pipeline.PredictGenders` | app.py:79-176 | A failed call leaves the frame unchanged. The model's result records which batch failed and its range, while the program itself shows only the exception text (app.py:176), with the progress bar left at `k / total`. Labels that do not fit the rows leave the frame unchanged. Scores that do not fit leave only `pred_gender` attached. Otherwise the export holds both columns with the raw labels, the frame then holds the normalised labels, and the distribution counts the normalised labels. |
| `Pipeline.AttachAppendsTwoColumns` | app.py:124-125 | On a frame without the two columns, a completed run exports the original columns, unchanged and in order, followed by `pred_gender` and `confidence_score`, with the same rows. |
| `Pipeline.MergedRowsAligned` | app.py:100-125 | When answers fit their chunks, both columns get attached, and row `j`'s label and score come from the answer entry computed for row `j`'s name. |
| `Pipeline.ExportedLabelsAreRaw` | app.py:138-150 | The exported label column equals the normalised one exactly when no label is `M` or `F`. |

## Left out

- The Streamlit page is presentation and I/O, so the model leaves it out: page
  setup, uploader, select box, button, status texts (including the range message
  of app.py:106 and the messages of 121, 173 and 176), previews and download button.
- Selecting the column: `if detected_col:` and the select box's preselected
  index (app.py:71-76) are UI. `PredictGenders` takes the chosen column as a
  parameter and requires it to be among the frame's columns, as the select box
  guarantees.
- The `gradio_client.Client` connection, its `st.cache_resource` caching and the
  network call at app.py:109 are foreign code. They are replaced by the
  `Service` parameter. A `Fault` stands for any exception raised by
  `client.predict`, by `result[0]` or `result[1]`, or by `extend`. A reply the
  program accepts is modelled as its two sequences; a longer tuple, or any
  other indexable value holding two iterables, is not distinguished.
- `pd.read_excel` and `create_excel_download` (openpyxl, `io.BytesIO`) are file
  codecs. The frame starts from a given table, and the export is modelled as the
  table value at app.py:138, not as bytes. A failure to read the file
  (app.py:178-179) is not modelled.
- `Pipeline.PredictGenders`: its success case assumes that writing the
  spreadsheet at app.py:138 succeeds. The write is inside the `try` of app.py:96,
  so a write failure is caught at app.py:175-176. At that point both columns are
  already attached and no distribution has been computed; the model does not
  include this path.
- The pie chart and its colours (app.py:158-171) are rendering.
- Wall-clock timing (app.py:98, 118-119) is non-deterministic.
- Floating point: confidence scores are an opaque type, and the progress fraction
  is the integer pair `(i + 1, total)`. `math.ceil(total_data / batch_size)` uses
  float division. It is modelled as the integer ceiling, which it equals for
  every list of fewer than 2^53 names.
- `Columns.Lower`: covers only ASCII letters, because Unicode case mapping is not
  modelled. No non-ASCII character lower-cases to a letter of `nama` or `name`,
  so detection is not affected.
- `Columns.StripSpec`: treats only the ASCII white-space characters (tab to
  carriage return, 0x1C to 0x1F, and space) as white space. Python's `strip()`
  also removes Unicode spaces such as U+00A0.
- `str(col)` of column labels that are not strings (numbers, dates) is left out.
  Column labels are strings here.
- Cells of the chosen column that are not text are not modelled as such. At
  app.py:82, `astype(str)` turns numbers, dates and empty cells (as `"nan"`) into
  text. A cell of the model is either text, taken as it is, or a confidence-score
  value rendered by the `show` parameter; other kinds of cell values are out.
- The order of `value_counts` output is left out. The distribution is a map.
- `Frames.Frame.SetColumn`: pandas has a special case for any frame with an
  empty index, with or without columns: assigning a list builds the index from
  the list. It is not modelled. It cannot change a run: a frame with zero rows
  gives zero names, hence zero batches and two empty lists, and assigning an
  empty list keeps the row count at zero.

