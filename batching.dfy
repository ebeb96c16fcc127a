/**
 * The chunked batch-submission loop of app.py (lines 82-125).
 *
 * The list of names is cut into consecutive chunks of at most `size` names
 * (5000 in app.py); chunk `i` is `names[i * size .. min((i + 1) * size, N)]`.
 * The chunks are sent to the remote predictor one after the other, in order;
 * each answer's labels and confidence scores are appended to two accumulators,
 * and a progress event `(i + 1) / total` is emitted. The first failing call
 * aborts the loop: no later chunk is sent.
 *
 * The remote predictor is a `Service`: given the number of the call and the
 * chunk, it answers with two sequences or fails. The call number lets the model
 * express a service that answers differently over time (a transient fault).
 * Confidence scores are values of an opaque type `C`.
 */
module Batching {
  import opened Arith

  /** The number of names app.py sends per call (app.py:86). */
  const BatchSize: nat := 5000

  /** `math.ceil(n / size)`: the number of chunks of `n` names. */
  function TotalBatches(n: nat, size: nat): (t: nat)
    requires size > 0
    ensures n <= t * size
    ensures t == 0 || (t - 1) * size < n
  {
    CeilDivBounds(n, size);
    (n + size - 1) / size
  }

  /** Chunk `i` of `xs`: positions `i * size` up to `min((i + 1) * size, |xs|)`. */
  function Chunk<T>(xs: seq<T>, size: nat, i: nat): seq<T>
    requires size > 0 && i < TotalBatches(|xs|, size)
  {
    ChunkInRange(|xs|, size, i);
    xs[i * size .. Min((i + 1) * size, |xs|)]
  }

  /** The first `k` chunks of `xs`, in order. */
  function ChunksUpTo<T>(xs: seq<T>, size: nat, k: nat): (cs: seq<seq<T>>)
    requires size > 0 && k <= TotalBatches(|xs|, size)
  {
    seq(k, i requires 0 <= i < k => Chunk(xs, size, i))
  }

  /** The parts of `parts` joined end to end. */
  function Concat<T>(parts: seq<seq<T>>): seq<T> {
    if parts == [] then [] else Concat(parts[..|parts| - 1]) + parts[|parts| - 1]
  }

  /** The bounds of chunk `i` lie inside the input, and `i * size` is its start. */
  lemma ChunkInRange(n: nat, size: nat, i: nat)
    requires size > 0 && i < TotalBatches(n, size)
    ensures i * size < n
    ensures i * size < Min((i + 1) * size, n) <= n
  {
    var t := TotalBatches(n, size);
    MulMonotone(i, t - 1, size);
    MulSucc(i, size);
  }

  /**
   * Every chunk is non-empty and holds at most `size` names; every chunk but the
   * last holds exactly `size`, and the last one ends at the end of the input.
   */
  lemma {:induction false} ChunkSizes<T>(xs: seq<T>, size: nat, i: nat)
    requires size > 0 && i < TotalBatches(|xs|, size)
    ensures 0 < |Chunk(xs, size, i)| <= size
    ensures i + 1 < TotalBatches(|xs|, size) ==> |Chunk(xs, size, i)| == size
    ensures i + 1 == TotalBatches(|xs|, size) ==> i * size + |Chunk(xs, size, i)| == |xs|
  {
    var t := TotalBatches(|xs|, size);
    ChunkInRange(|xs|, size, i);
    MulSucc(i, size);
    if i + 1 < t {
      ChunkInRange(|xs|, size, i + 1);
    } else {
      assert i == t - 1;
    }
  }

  /**
   * Consecutive chunks touch: chunk `i` ends exactly where chunk `i + 1` starts,
   * so there is neither a gap nor an overlap between them.
   */
  lemma ChunksAdjacent(n: nat, size: nat, i: nat)
    requires size > 0 && i + 1 < TotalBatches(n, size)
    ensures Min((i + 1) * size, n) == (i + 1) * size
  {
    ChunkInRange(n, size, i + 1);
  }

  /** Two different chunks cover disjoint ranges of positions. */
  lemma ChunksDisjoint(n: nat, size: nat, i: nat, j: nat)
    requires size > 0 && i < j < TotalBatches(n, size)
    ensures Min((i + 1) * size, n) <= j * size
  {
    MulMonotone(i + 1, j, size);
  }

  /**
   * The first `k` chunks, joined in order, are exactly the first
   * `min(k * size, N)` names.
   */
  lemma {:induction false} ConcatChunksUpTo<T>(xs: seq<T>, size: nat, k: nat)
    requires size > 0 && k <= TotalBatches(|xs|, size)
    ensures Concat(ChunksUpTo(xs, size, k)) == xs[..Min(k * size, |xs|)]
  {
    if k == 0 {
      assert ChunksUpTo(xs, size, 0) == [];
    } else {
      var cs := ChunksUpTo(xs, size, k);
      assert cs[..k - 1] == ChunksUpTo(xs, size, k - 1);
      ConcatChunksUpTo(xs, size, k - 1);
      ChunkInRange(|xs|, size, k - 1);
      MulSucc(k - 1, size);
      assert Min((k - 1) * size, |xs|) == (k - 1) * size;
      assert xs[..(k - 1) * size] + Chunk(xs, size, k - 1) == xs[..Min(k * size, |xs|)];
    }
  }

  /** All the chunks, joined in order, give back the whole input. */
  lemma ChunksCoverInput<T>(xs: seq<T>, size: nat)
    requires size > 0
    ensures Concat(ChunksUpTo(xs, size, TotalBatches(|xs|, size))) == xs
  {
    var t := TotalBatches(|xs|, size);
    ConcatChunksUpTo(xs, size, t);
    assert Min(t * size, |xs|) == |xs|;
  }

  /** An empty input gives no chunk at all, so the predictor is never called. */
  lemma NoBatchesForNoNames(n: nat, size: nat)
    requires size > 0
    ensures TotalBatches(n, size) == 0 <==> n == 0
  {
  }

  /** Twelve thousand names in chunks of 5000 give chunks of 5000, 5000 and 2000. */
  lemma TwelveThousandNames<T>(xs: seq<T>)
    requires |xs| == 12000
    ensures TotalBatches(|xs|, BatchSize) == 3
    ensures |Chunk(xs, BatchSize, 0)| == 5000
    ensures |Chunk(xs, BatchSize, 1)| == 5000
    ensures |Chunk(xs, BatchSize, 2)| == 2000
    ensures ProgressUpTo(3, 3) == [Progress(1, 3), Progress(2, 3), Progress(3, 3)]
  {
  }

  /** What one call of the predictor gives back (`result` in app.py:109). */
  datatype Reply<C> =
    | Answer(labels: seq<string>, scores: seq<C>)  // result[0] and result[1]
    | Fault(reason: string)                          // the call raised an exception

  /** The remote predictor: call number and chunk of names to a reply. */
  type Service<C> = (nat, seq<string>) -> Reply<C>

  /** A progress event: `done` of `total` batches are complete (app.py:116). */
  datatype Progress = Progress(done: nat, total: nat)

  /** How the loop ended. */
  datatype Outcome<C> =
    | Finished(labels: seq<string>, scores: seq<C>)
      // every call answered: the two accumulators
    | Aborted(batch: nat, start: nat, end: nat, reason: string)
      // call `batch`, on the names at positions `start` up to `end`, failed

  /** The reply to call `i`, made on chunk `i`. */
  function ReplyTo<C>(names: seq<string>, size: nat, submit: Service<C>, i: nat): Reply<C>
    requires size > 0 && i < TotalBatches(|names|, size)
  {
    submit(i, Chunk(names, size, i))
  }

  /** The first `k` calls all answered. */
  predicate AnsweredUpTo<C>(names: seq<string>, size: nat, submit: Service<C>, k: nat)
    requires size > 0 && k <= TotalBatches(|names|, size)
  {
    forall i :: 0 <= i < k ==> ReplyTo(names, size, submit, i).Answer?
  }

  /** The labels of the first `k` answers, joined in call order. */
  function LabelsUpTo<C>(names: seq<string>, size: nat, submit: Service<C>, k: nat): seq<string>
    requires size > 0 && k <= TotalBatches(|names|, size)
    requires AnsweredUpTo(names, size, submit, k)
  {
    if k == 0 then [] else
      LabelsUpTo(names, size, submit, k - 1) + ReplyTo(names, size, submit, k - 1).labels
  }

  /** The confidence scores of the first `k` answers, joined in call order. */
  function ScoresUpTo<C>(names: seq<string>, size: nat, submit: Service<C>, k: nat): seq<C>
    requires size > 0 && k <= TotalBatches(|names|, size)
    requires AnsweredUpTo(names, size, submit, k)
  {
    if k == 0 then [] else
      ScoresUpTo(names, size, submit, k - 1) + ReplyTo(names, size, submit, k - 1).scores
  }

  /** The progress events of the first `k` completed batches out of `total`. */
  function ProgressUpTo(k: nat, total: nat): seq<Progress> {
    seq(k, i requires 0 <= i < k => Progress(i + 1, total))
  }

  lemma ChunksUpToSnoc<T>(xs: seq<T>, size: nat, k: nat)
    requires size > 0 && k < TotalBatches(|xs|, size)
    ensures ChunksUpTo(xs, size, k + 1) == ChunksUpTo(xs, size, k) + [Chunk(xs, size, k)]
  {
  }

  lemma ProgressUpToSnoc(k: nat, total: nat)
    ensures ProgressUpTo(k + 1, total) == ProgressUpTo(k, total) + [Progress(k + 1, total)]
  {
  }

  /**
   * The batch loop of app.py:93-116. It returns how the loop ended, the chunks it
   * sent to the predictor (in order) and the progress events it emitted.
   *
   * When every call answers, the outcome holds the labels and scores of all the
   * answers, in call order, every chunk was sent once, and a progress event was
   * emitted after each. When call `k` fails, the calls before it all answered,
   * chunks 0 through `k` were sent and no later one, the outcome names the range
   * of positions of chunk `k`, and `k` progress events were emitted.
   */
  method SubmitAll<C>(names: seq<string>, size: nat, submit: Service<C>)
    returns (outcome: Outcome<C>, calls: seq<seq<string>>, progress: seq<Progress>)
    requires size > 0
    ensures var total := TotalBatches(|names|, size);
      outcome.Finished? <==> AnsweredUpTo(names, size, submit, total)
    ensures var total := TotalBatches(|names|, size);
      outcome.Finished? ==>
        outcome.labels == LabelsUpTo(names, size, submit, total) &&
        outcome.scores == ScoresUpTo(names, size, submit, total) &&
        calls == ChunksUpTo(names, size, total) &&
        progress == ProgressUpTo(total, total)
    ensures var total := TotalBatches(|names|, size);
      outcome.Aborted? ==>
        var k := outcome.batch;
        k < total &&
        AnsweredUpTo(names, size, submit, k) &&
        ReplyTo(names, size, submit, k) == Fault(outcome.reason) &&
        outcome.start == k * size &&
        outcome.end == Min((k + 1) * size, |names|) &&
        calls == ChunksUpTo(names, size, k + 1) &&
        progress == ProgressUpTo(k, total)
  {
    var totalData := |names|;
    var totalBatches := TotalBatches(totalData, size);
    var allPredGenders: seq<string> := [];
    var allConfidence: seq<C> := [];
    calls, progress := [], [];
    for i := 0 to totalBatches
      invariant AnsweredUpTo(names, size, submit, i)
      invariant allPredGenders == LabelsUpTo(names, size, submit, i)
      invariant allConfidence == ScoresUpTo(names, size, submit, i)
      invariant calls == ChunksUpTo(names, size, i)
      invariant progress == ProgressUpTo(i, totalBatches)
    {
      var startIdx := i * size;
      var endIdx := Min((i + 1) * size, totalData);
      ChunkInRange(totalData, size, i);
      var chunk := names[startIdx..endIdx];
      assert chunk == Chunk(names, size, i);
      ChunksUpToSnoc(names, size, i);
      calls := calls + [chunk];
      var result := submit(i, chunk);
      if result.Fault? {
        assert result == ReplyTo(names, size, submit, i);
        outcome := Aborted(i, startIdx, endIdx, result.reason);
        return;
      }
      allPredGenders := allPredGenders + result.labels;
      allConfidence := allConfidence + result.scores;
      ProgressUpToSnoc(i, totalBatches);
      progress := progress + [Progress(i + 1, totalBatches)];
    }
    outcome := Finished(allPredGenders, allConfidence);
  }

  /** Every answer among the first `k` has as many labels and as many scores as its chunk has names. */
  predicate RepliesFit<C>(names: seq<string>, size: nat, submit: Service<C>, k: nat)
    requires size > 0 && k <= TotalBatches(|names|, size)
  {
    forall i :: 0 <= i < k ==>
      var reply := ReplyTo(names, size, submit, i);
      reply.Answer? &&
      |reply.labels| == |Chunk(names, size, i)| && |reply.scores| == |Chunk(names, size, i)|
  }

  /** When every answer is as long as its chunk, after `k` calls both accumulators hold `min(k * size, N)` entries. */
  lemma {:induction false} AccumulatedLengths<C>(names: seq<string>, size: nat, submit: Service<C>, k: nat)
    requires size > 0 && k <= TotalBatches(|names|, size)
    requires RepliesFit(names, size, submit, k)
    ensures AnsweredUpTo(names, size, submit, k)
    ensures |LabelsUpTo(names, size, submit, k)| == Min(k * size, |names|)
    ensures |ScoresUpTo(names, size, submit, k)| == Min(k * size, |names|)
  {
    if k > 0 {
      AccumulatedLengths(names, size, submit, k - 1);
      ChunkInRange(|names|, size, k - 1);
      MulSucc(k - 1, size);
    }
  }

  /**
   * Entry `p` of the answer to call `i` sits in the accumulated labels right
   * after the labels of the calls before it, and stays there as later answers
   * are appended.
   */
  lemma {:induction false} LabelLandsAfterEarlierOnes<C>(names: seq<string>, size: nat, submit: Service<C>,
                                                         k: nat, i: nat, p: nat)
    requires size > 0 && k <= TotalBatches(|names|, size)
    requires AnsweredUpTo(names, size, submit, k)
    requires i < k && p < |ReplyTo(names, size, submit, i).labels|
    ensures |LabelsUpTo(names, size, submit, i)| + p < |LabelsUpTo(names, size, submit, k)|
    ensures LabelsUpTo(names, size, submit, k)[|LabelsUpTo(names, size, submit, i)| + p] ==
      ReplyTo(names, size, submit, i).labels[p]
  {
    if i < k - 1 {
      LabelLandsAfterEarlierOnes(names, size, submit, k - 1, i, p);
    }
  }

  /** The same for the accumulated confidence scores. */
  lemma {:induction false} ScoreLandsAfterEarlierOnes<C>(names: seq<string>, size: nat, submit: Service<C>,
                                                         k: nat, i: nat, p: nat)
    requires size > 0 && k <= TotalBatches(|names|, size)
    requires AnsweredUpTo(names, size, submit, k)
    requires i < k && p < |ReplyTo(names, size, submit, i).scores|
    ensures |ScoresUpTo(names, size, submit, i)| + p < |ScoresUpTo(names, size, submit, k)|
    ensures ScoresUpTo(names, size, submit, k)[|ScoresUpTo(names, size, submit, i)| + p] ==
      ReplyTo(names, size, submit, i).scores[p]
  {
    if i < k - 1 {
      ScoreLandsAfterEarlierOnes(names, size, submit, k - 1, i, p);
    }
  }

  /**
   * When every answer is as long as its chunk, entry `p` of the answer to chunk
   * `i` lands at position `i * size + p` of each accumulator: where chunk `i`
   * took name `i * size + p` from.
   */
  lemma AccumulatedAt<C>(names: seq<string>, size: nat, submit: Service<C>, k: nat, i: nat, p: nat)
    requires size > 0 && k <= TotalBatches(|names|, size)
    requires RepliesFit(names, size, submit, k)
    requires i < k && p < |Chunk(names, size, i)|
    ensures AnsweredUpTo(names, size, submit, k)
    ensures i * size + p < |LabelsUpTo(names, size, submit, k)|
    ensures i * size + p < |ScoresUpTo(names, size, submit, k)|
    ensures LabelsUpTo(names, size, submit, k)[i * size + p] == ReplyTo(names, size, submit, i).labels[p]
    ensures ScoresUpTo(names, size, submit, k)[i * size + p] == ReplyTo(names, size, submit, i).scores[p]
  {
    AccumulatedLengths(names, size, submit, i);
    ChunkInRange(|names|, size, i);
    assert Min(i * size, |names|) == i * size;
    LabelLandsAfterEarlierOnes(names, size, submit, k, i, p);
    ScoreLandsAfterEarlierOnes(names, size, submit, k, i, p);
  }

  /** The chunk that holds position `j`, and the offset of `j` inside it. */
  lemma ChunkOf<T>(xs: seq<T>, size: nat, j: nat) returns (i: nat, p: nat)
    requires size > 0 && j < |xs|
    ensures i == j / size && p == j % size
    ensures i < TotalBatches(|xs|, size)
    ensures j == i * size + p && p < |Chunk(xs, size, i)| && Chunk(xs, size, i)[p] == xs[j]
  {
    i, p := j / size, j % size;
    BlockPosition(j, size, |xs|, TotalBatches(|xs|, size));
    ChunkInRange(|xs|, size, i);
  }

  /**
   * Positional alignment, name by name. When every answer is as long as its chunk
   * (app.py does not check this), then after the whole run entry `j` of both
   * accumulators comes from the answer to chunk `j / size`, at the place where
   * that chunk holds name `j`.
   */
  lemma Alignment<C>(names: seq<string>, size: nat, submit: Service<C>, j: nat)
    requires size > 0 && j < |names|
    requires RepliesFit(names, size, submit, TotalBatches(|names|, size))
    ensures AnsweredUpTo(names, size, submit, TotalBatches(|names|, size))
    ensures |LabelsUpTo(names, size, submit, TotalBatches(|names|, size))| == |names|
    ensures |ScoresUpTo(names, size, submit, TotalBatches(|names|, size))| == |names|
    ensures j / size < TotalBatches(|names|, size)
    ensures j % size < |Chunk(names, size, j / size)|
    ensures Chunk(names, size, j / size)[j % size] == names[j]
    ensures LabelsUpTo(names, size, submit, TotalBatches(|names|, size))[j] ==
      ReplyTo(names, size, submit, j / size).labels[j % size]
    ensures ScoresUpTo(names, size, submit, TotalBatches(|names|, size))[j] ==
      ReplyTo(names, size, submit, j / size).scores[j % size]
  {
    var total := TotalBatches(|names|, size);
    AccumulatedLengths(names, size, submit, total);
    var i, p := ChunkOf(names, size, j);
    AccumulatedAt(names, size, submit, total, i, p);
  }

  /** Each name on its own: the answer to a chunk that a per-name classifier gives. */
  function MapSeq<A, B>(f: A -> B, xs: seq<A>): (ys: seq<B>)
    ensures |ys| == |xs|
  {
    seq(|xs|, i requires 0 <= i < |xs| => f(xs[i]))
  }

  /** A predictor that labels and scores each name independently of the rest of its chunk. */
  function PerName<C>(classify: string -> string, score: string -> C): Service<C> {
    (i: nat, chunk: seq<string>) => Answer(MapSeq(classify, chunk), MapSeq(score, chunk))
  }

  /**
   * Batching is transparent: with a predictor that treats every name on its own,
   * the accumulated labels and scores are those of the whole list classified in
   * one piece, whatever the chunk size.
   */
  lemma {:induction false} BatchingIsTransparent<C>(names: seq<string>, size: nat,
                                                    classify: string -> string, score: string -> C, k: nat)
    requires size > 0 && k <= TotalBatches(|names|, size)
    ensures AnsweredUpTo(names, size, PerName(classify, score), k)
    ensures LabelsUpTo(names, size, PerName(classify, score), k) == MapSeq(classify, names[..Min(k * size, |names|)])
    ensures ScoresUpTo(names, size, PerName(classify, score), k) == MapSeq(score, names[..Min(k * size, |names|)])
  {
    if k > 0 {
      BatchingIsTransparent(names, size, classify, score, k - 1);
      var before := names[..Min((k - 1) * size, |names|)];
      var chunk := Chunk(names, size, k - 1);
      PrefixGrowsByChunk(names, size, k);
      MapSeqAppend(classify, before, chunk);
      MapSeqAppend(score, before, chunk);
    }
  }

  /** The first `k` chunks' worth of names are the first `k - 1` chunks' worth followed by chunk `k - 1`. */
  lemma PrefixGrowsByChunk<T>(xs: seq<T>, size: nat, k: nat)
    requires size > 0 && 0 < k <= TotalBatches(|xs|, size)
    ensures xs[..Min(k * size, |xs|)] == xs[..Min((k - 1) * size, |xs|)] + Chunk(xs, size, k - 1)
  {
    ChunkInRange(|xs|, size, k - 1);
    MulSucc(k - 1, size);
    assert Min((k - 1) * size, |xs|) == (k - 1) * size;
  }

  lemma MapSeqAppend<A, B>(f: A -> B, xs: seq<A>, ys: seq<A>)
    ensures MapSeq(f, xs + ys) == MapSeq(f, xs) + MapSeq(f, ys)
  {
  }

  /**
   * After a run that completed every batch, the accumulators line up with the
   * whole input: each holds one entry per name.
   */
  lemma CompletedRunCoversInput<C>(names: seq<string>, size: nat, submit: Service<C>)
    requires size > 0
    requires RepliesFit(names, size, submit, TotalBatches(|names|, size))
    ensures var total := TotalBatches(|names|, size);
      AnsweredUpTo(names, size, submit, total) &&
      |LabelsUpTo(names, size, submit, total)| == |names| &&
      |ScoresUpTo(names, size, submit, total)| == |names|
  {
    AccumulatedLengths(names, size, submit, TotalBatches(|names|, size));
  }

  /**
   * The progress events count up one batch at a time against a fixed total, and
   * the fraction reaches 1 exactly at the event of the last batch.
   */
  lemma ProgressCountsUp(k: nat, total: nat)
    requires k <= total
    ensures |ProgressUpTo(k, total)| == k
    ensures forall i :: 0 <= i < k ==>
      ProgressUpTo(k, total)[i].total == total && 0 < ProgressUpTo(k, total)[i].done <= total
    ensures forall i, j :: 0 <= i < j < k ==> ProgressUpTo(k, total)[i].done < ProgressUpTo(k, total)[j].done
    ensures forall i :: 0 <= i < k ==> (ProgressUpTo(k, total)[i].done == total <==> i == total - 1)
  {
  }
}
