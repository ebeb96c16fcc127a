/**
 * The prediction run behind the "Mulai Prediksi Massal" button (app.py:79-176):
 * the names of the chosen column are sent in batches of 5000, the labels and
 * scores are attached to the frame as the columns `pred_gender` and
 * `confidence_score`, the frame is exported, and the labels are then normalised
 * in the frame and counted.
 *
 * Any exception inside the run is caught at app.py:175 and shown as an error:
 * a failed call of the predictor, or pandas refusing an assignment because a
 * column would get more or fewer values than the frame has rows.
 */
module Pipeline {
  import opened Wrappers
  import opened Arith
  import opened Batching
  import opened Labels
  import opened Frames

  const PredColumn: string := "pred_gender"
  const ScoreColumn: string := "confidence_score"

  /** Why a run stopped. */
  datatype Failure =
    | BatchFailed(batch: nat, start: nat, end: nat, reason: string)
      // the predictor failed on the names at positions `start` up to `end`
    | LengthMismatch(column: string, rows: nat, values: nat)
      // pandas refused to assign `values` values to a frame of `rows` rows

  /** What a completed run produced: the exported table and the gender distribution. */
  datatype Report<C> = Report(exported: Table<C>, distribution: map<string, nat>)

  /** `astype(str)` on one cell; `show` is Python's `str` of a confidence score. */
  function AsText<C>(c: Cell<C>, show: C -> string): string {
    match c
    case Text(s) => s
    case Score(x) => show(x)
  }

  /** `df[target].astype(str).tolist()` (app.py:82). */
  function NamesOf<C>(t: Table<C>, target: string, show: C -> string): (names: seq<string>)
    requires WellFormed(t) && target in t.columns
    ensures |names| == t.height
    ensures forall j :: 0 <= j < |names| ==> names[j] == AsText(t.data[target][j], show)
  {
    MapSeq((c: Cell<C>) => AsText(c, show), t.data[target])
  }

  /** A list of labels as a column of text cells. */
  function Texts<C>(labels: seq<string>): (cells: seq<Cell<C>>)
    ensures |cells| == |labels|
  {
    MapSeq((s: string) => Text(s), labels)
  }

  /** A list of confidence scores as a column of score cells. */
  function Scores<C>(scores: seq<C>): (cells: seq<Cell<C>>)
    ensures |cells| == |scores|
  {
    MapSeq((x: C) => Score(x), scores)
  }

  /** `replace({'M': 'Laki-laki', 'F': 'Perempuan'})` on a column: text cells are mapped, others kept. */
  function ReplaceCodes<C>(column: seq<Cell<C>>): (r: seq<Cell<C>>)
    ensures |r| == |column|
  {
    MapSeq((c: Cell<C>) => if c.Text? then Text(Canonical(c.text)) else c, column)
  }

  /** The texts of the text cells of a column: only those can pass `isin` on two strings. */
  function TextLabels<C>(column: seq<Cell<C>>): (labels: seq<string>)
    ensures |labels| <= |column|
  {
    if column == [] then []
    else (if column[0].Text? then [column[0].text] else []) + TextLabels(column[1..])
  }

  /** Replacing codes in a column of labels is normalising the labels. */
  lemma ReplaceCodesOnTexts<C>(labels: seq<string>)
    ensures ReplaceCodes(Texts<C>(labels)) == Texts(Normalize(labels))
  {
  }

  /** A column of labels reads back as the labels. */
  lemma {:induction false} TextLabelsOfTexts<C>(labels: seq<string>)
    ensures TextLabels(Texts<C>(labels)) == labels
  {
    if labels != [] {
      assert Texts<C>(labels)[1..] == Texts<C>(labels[1..]);
      TextLabelsOfTexts<C>(labels[1..]);
    }
  }

  /**
   * The run of app.py:79-176 on a frame with a chosen name column, a rendering of
   * scores as text, and the predictor; it also returns the chunks sent and the
   * progress events, as `SubmitAll` does.
   *
   * When a call fails, the frame is unchanged. When every call answers but the
   * labels do not number one per row, pandas refuses the first assignment and
   * the frame is unchanged; when the labels fit but the scores do not, the second
   * assignment is refused after the first one has already added `pred_gender`.
   * Otherwise the exported table is the frame with both columns, holding the
   * labels as the predictor gave them; only afterwards is `pred_gender`
   * normalised in the frame, and the distribution counts the normalised labels.
   */
  method PredictGenders<C>(frame: Frame<C>, target: string, show: C -> string, submit: Service<C>)
    returns (result: Result<Report<C>, Failure>, calls: seq<seq<string>>, progress: seq<Progress>)
    requires frame.Valid() && target in frame.columns
    modifies frame
    ensures frame.Valid()
    ensures var names := NamesOf(old(frame.Snapshot()), target, show);
      var total := TotalBatches(|names|, BatchSize);
      (result.Failure? && result.error.BatchFailed?) <==> !AnsweredUpTo(names, BatchSize, submit, total)
    ensures var names := NamesOf(old(frame.Snapshot()), target, show);
      var total := TotalBatches(|names|, BatchSize);
      result.Failure? && result.error.BatchFailed? ==>
        var k := result.error.batch;
        k < total &&
        AnsweredUpTo(names, BatchSize, submit, k) &&
        ReplyTo(names, BatchSize, submit, k) == Fault(result.error.reason) &&
        result.error.start == k * BatchSize &&
        result.error.end == Min((k + 1) * BatchSize, |names|) &&
        calls == ChunksUpTo(names, BatchSize, k + 1) &&
        progress == ProgressUpTo(k, total) &&
        frame.Snapshot() == old(frame.Snapshot())
    ensures var before := old(frame.Snapshot());
      var names := NamesOf(before, target, show);
      var total := TotalBatches(|names|, BatchSize);
      AnsweredUpTo(names, BatchSize, submit, total) ==>
        var labels := LabelsUpTo(names, BatchSize, submit, total);
        var scores := ScoresUpTo(names, BatchSize, submit, total);
        calls == ChunksUpTo(names, BatchSize, total) &&
        progress == ProgressUpTo(total, total) &&
        (|labels| != before.height ==>
          result == Failure(LengthMismatch(PredColumn, before.height, |labels|)) &&
          frame.Snapshot() == before) &&
        (|labels| == before.height && |scores| != before.height ==>
          result == Failure(LengthMismatch(ScoreColumn, before.height, |scores|)) &&
          frame.Snapshot() == WithColumn(before, PredColumn, Texts(labels))) &&
        (|labels| == before.height && |scores| == before.height ==>
          var exported := WithColumn(WithColumn(before, PredColumn, Texts(labels)), ScoreColumn, Scores(scores));
          result == Success(Report(exported, Distribution(Normalize(labels)))) &&
          frame.Snapshot() == WithColumn(exported, PredColumn, Texts(Normalize(labels))))
  {
    var names := MapSeq((c: Cell<C>) => AsText(c, show), frame.Get(target));
    var outcome;
    outcome, calls, progress := SubmitAll(names, BatchSize, submit);
    if outcome.Aborted? {
      return Failure(BatchFailed(outcome.batch, outcome.start, outcome.end, outcome.reason)), calls, progress;
    }
    var ok := frame.SetColumn(PredColumn, Texts(outcome.labels));
    if !ok {
      return Failure(LengthMismatch(PredColumn, frame.height, |outcome.labels|)), calls, progress;
    }
    ok := frame.SetColumn(ScoreColumn, Scores(outcome.scores));
    if !ok {
      return Failure(LengthMismatch(ScoreColumn, frame.height, |outcome.scores|)), calls, progress;
    }
    // app.py:138: the spreadsheet is written from the frame as it is now.
    var exported := frame.Snapshot();
    // app.py:150: the labels are normalised in the frame afterwards.
    var replaced := ReplaceCodes(frame.Get(PredColumn));
    ReplaceCodesOnTexts<C>(outcome.labels);
    ok := frame.SetColumn(PredColumn, replaced);
    // app.py:153-154: the rows with a display label, counted per label.
    var shown := TextLabels(frame.Get(PredColumn));
    TextLabelsOfTexts<C>(Normalize(outcome.labels));
    result := Success(Report(exported, Distribution(shown)));
  }

  /**
   * A completed run on a frame without `pred_gender` and `confidence_score`
   * exports exactly the original columns, in order and unchanged, followed by
   * these two, with the same rows.
   */
  lemma AttachAppendsTwoColumns<C>(t: Table<C>, labels: seq<string>, scores: seq<C>)
    requires WellFormed(t) && PredColumn !in t.columns && ScoreColumn !in t.columns
    requires |labels| == t.height && |scores| == t.height
    ensures var exported := WithColumn(WithColumn(t, PredColumn, Texts(labels)), ScoreColumn, Scores(scores));
      exported.columns == t.columns + [PredColumn, ScoreColumn] &&
      exported.height == t.height &&
      (forall c :: c in t.columns ==> exported.data[c] == t.data[c]) &&
      exported.data[PredColumn] == Texts(labels) &&
      exported.data[ScoreColumn] == Scores(scores)
  {
    var once := WithColumn(t, PredColumn, Texts(labels));
    WithColumnKeepsTheRest(t, PredColumn, Texts(labels));
    assert ScoreColumn !in once.columns;
    WithColumnKeepsTheRest(once, ScoreColumn, Scores(scores));
  }

  /**
   * Positional alignment in the merged frame. When every answer is as long as its
   * chunk, a run attaches both columns, and the label of row `j` is computed from
   * the name of row `j`: it is the display form of the entry, in the answer to
   * chunk `j / 5000`, at the place where that chunk holds row `j`'s name.
   */
  lemma MergedRowsAligned<C>(t: Table<C>, target: string, show: C -> string, submit: Service<C>, j: nat)
    requires WellFormed(t) && target in t.columns && j < t.height
    requires RepliesFit(NamesOf(t, target, show), BatchSize, submit,
                        TotalBatches(|NamesOf(t, target, show)|, BatchSize))
    ensures var names := NamesOf(t, target, show);
      var total := TotalBatches(|names|, BatchSize);
      AnsweredUpTo(names, BatchSize, submit, total) &&
      var labels := LabelsUpTo(names, BatchSize, submit, total);
      var scores := ScoresUpTo(names, BatchSize, submit, total);
      |labels| == t.height && |scores| == t.height &&
      j / BatchSize < total && j % BatchSize < |Chunk(names, BatchSize, j / BatchSize)| &&
      Chunk(names, BatchSize, j / BatchSize)[j % BatchSize] == AsText(t.data[target][j], show) &&
      Texts<C>(Normalize(labels))[j] ==
        Text(Canonical(ReplyTo(names, BatchSize, submit, j / BatchSize).labels[j % BatchSize])) &&
      Scores(scores)[j] == Score(ReplyTo(names, BatchSize, submit, j / BatchSize).scores[j % BatchSize])
  {
    var names := NamesOf(t, target, show);
    Alignment(names, BatchSize, submit, j);
  }

  /**
   * The exported spreadsheet holds the labels as the predictor gave them, not
   * their display forms: the two columns agree exactly when no label is one of
   * the codes "M" and "F".
   */
  lemma ExportedLabelsAreRaw<C>(labels: seq<string>)
    ensures Texts<C>(Normalize(labels)) == Texts<C>(labels) <==>
      forall i :: 0 <= i < |labels| ==> labels[i] != MaleCode && labels[i] != FemaleCode
  {
    if Texts<C>(Normalize(labels)) == Texts<C>(labels) {
      forall i | 0 <= i < |labels| ensures labels[i] != MaleCode && labels[i] != FemaleCode {
        assert Texts<C>(Normalize(labels))[i] == Texts<C>(labels)[i];
      }
    }
  }
}
