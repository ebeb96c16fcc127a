/**
 * Normalisation of the predicted gender labels and the gender distribution
 * (app.py:150-156).
 *
 * The predictor may answer with the short codes "M" and "F"; these are replaced
 * by the display labels "Laki-laki" (male) and "Perempuan" (female), and every
 * other value is kept as it is. The distribution then counts the rows per
 * label, over the rows whose label is one of the two display labels only.
 */
module Labels {

  const Male: string := "Laki-laki"
  const Female: string := "Perempuan"
  const MaleCode: string := "M"
  const FemaleCode: string := "F"

  /** The label shown for a raw predicted label: `replace({'M': ..., 'F': ...})` on one value. */
  function Canonical(raw: string): string {
    if raw == MaleCode then Male
    else if raw == FemaleCode then Female
    else raw
  }

  /** One of the two labels the distribution counts: `isin(['Laki-laki', 'Perempuan'])`. */
  predicate IsGender(s: string) {
    s == Male || s == Female
  }

  /** The whole-column `replace`. */
  function Normalize(labels: seq<string>): (r: seq<string>)
    ensures |r| == |labels|
  {
    seq(|labels|, i requires 0 <= i < |labels| => Canonical(labels[i]))
  }

  /** The rows that survive the filter `df['pred_gender'].isin([...])`, in order. */
  function KeepGenders(labels: seq<string>): (r: seq<string>)
    ensures |r| <= |labels|
  {
    if labels == [] then []
    else (if IsGender(labels[0]) then [labels[0]] else []) + KeepGenders(labels[1..])
  }

  /** The number of times `v` occurs in `xs`. */
  function Count(xs: seq<string>, v: string): nat {
    if xs == [] then 0 else (if xs[0] == v then 1 else 0) + Count(xs[1..], v)
  }

  /** `value_counts`: each distinct value mapped to the number of times it occurs. */
  function ValueCounts(xs: seq<string>): map<string, nat> {
    map v | v in xs :: Count(xs, v)
  }

  /** The distribution of app.py:153-154: value counts of the rows that pass the filter. */
  function Distribution(labels: seq<string>): map<string, nat> {
    ValueCounts(KeepGenders(labels))
  }

  /** The two codes and the two display labels are four different strings. */
  lemma LabelsDiffer()
    ensures MaleCode != FemaleCode && MaleCode != Male && MaleCode != Female
    ensures FemaleCode != Male && FemaleCode != Female && Male != Female
  {
    assert |MaleCode| == |FemaleCode| == 1 && |Male| == |Female| == 9;
    assert MaleCode[0] != FemaleCode[0] && Male[0] != Female[0];
  }

  /**
   * Normalisation maps "M" to "Laki-laki" and "F" to "Perempuan", leaves every
   * other label unchanged, and keeps each label at its position.
   */
  lemma NormalizeAt(labels: seq<string>, i: nat)
    requires i < |labels|
    ensures labels[i] == MaleCode ==> Normalize(labels)[i] == Male
    ensures labels[i] == FemaleCode ==> Normalize(labels)[i] == Female
    ensures labels[i] != MaleCode && labels[i] != FemaleCode ==> Normalize(labels)[i] == labels[i]
  {
  }

  /** Normalising twice is normalising once: the display labels are fixed points. */
  lemma NormalizeIdempotent(labels: seq<string>)
    ensures Normalize(Normalize(labels)) == Normalize(labels)
  {
    LabelsDiffer();
  }

  /** A label is counted exactly as often as it occurs, when it is one of the two display labels. */
  lemma {:induction false} KeepGendersCounts(labels: seq<string>, v: string)
    ensures Count(KeepGenders(labels), v) == if IsGender(v) then Count(labels, v) else 0
  {
    if labels != [] {
      KeepGendersCounts(labels[1..], v);
      var head := if IsGender(labels[0]) then [labels[0]] else [];
      CountAppend(head, KeepGenders(labels[1..]), v);
    }
  }

  lemma {:induction false} CountAppend(xs: seq<string>, ys: seq<string>, v: string)
    ensures Count(xs + ys, v) == Count(xs, v) + Count(ys, v)
  {
    if xs != [] {
      assert (xs + ys)[1..] == xs[1..] + ys;
      CountAppend(xs[1..], ys, v);
    } else {
      assert xs + ys == ys;
    }
  }

  /** A value is counted at least once exactly when it occurs. */
  lemma {:induction false} CountPositive(xs: seq<string>, v: string)
    ensures Count(xs, v) > 0 <==> v in xs
  {
    if xs != [] {
      CountPositive(xs[1..], v);
      assert xs == [xs[0]] + xs[1..];
    }
  }

  /** The rows kept by the filter are exactly those with one of the two display labels. */
  lemma {:induction false} KeepGendersOnlyGenders(labels: seq<string>)
    ensures forall s :: s in KeepGenders(labels) <==> s in labels && IsGender(s)
  {
    if labels != [] {
      KeepGendersOnlyGenders(labels[1..]);
      assert labels == [labels[0]] + labels[1..];
    }
  }

  /**
   * The distribution has a key exactly for each display label that occurs among
   * the labels, and counts every occurrence of it.
   */
  lemma DistributionCounts(labels: seq<string>)
    ensures forall v :: v in Distribution(labels) <==> IsGender(v) && v in labels
    ensures forall v :: v in Distribution(labels) ==> Distribution(labels)[v] == Count(labels, v)
  {
    KeepGendersOnlyGenders(labels);
    assert forall v :: v in Distribution(labels) <==> v in KeepGenders(labels);
    forall v | v in Distribution(labels)
      ensures Distribution(labels)[v] == Count(labels, v)
    {
      KeepGendersCounts(labels, v);
    }
  }

  /** The count of a label in a distribution, zero when it has no key. */
  function CountOf(d: map<string, nat>, v: string): nat {
    if v in d then d[v] else 0
  }

  /** The counts add up to the number of rows whose label is a display label. */
  lemma DistributionTotal(labels: seq<string>)
    ensures Distribution(labels).Keys <= {Male, Female}
    ensures CountOf(Distribution(labels), Male) + CountOf(Distribution(labels), Female) ==
      |KeepGenders(labels)|
  {
    var kept := KeepGenders(labels);
    KeepGendersOnlyGenders(labels);
    CountOfTwo(kept);
    CountPositive(kept, Male);
    CountPositive(kept, Female);
  }

  /** A sequence of display labels holds as many elements as it has of each of the two. */
  lemma {:induction false} CountOfTwo(xs: seq<string>)
    requires forall s :: s in xs ==> IsGender(s)
    ensures Count(xs, Male) + Count(xs, Female) == |xs|
  {
    LabelsDiffer();
    if xs != [] {
      assert xs[0] in xs;
      assert forall s :: s in xs[1..] ==> s in xs;
      CountOfTwo(xs[1..]);
    }
  }

  /**
   * The distribution is empty (app.py then shows a "no data" message instead of
   * the chart) exactly when no row has a display label.
   */
  lemma DistributionEmpty(labels: seq<string>)
    ensures Distribution(labels) == map[] <==> forall i :: 0 <= i < |labels| ==> !IsGender(labels[i])
  {
    DistributionCounts(labels);
    if Distribution(labels) == map[] {
      forall i | 0 <= i < |labels| ensures !IsGender(labels[i]) {
        assert labels[i] in labels;
        assert labels[i] !in Distribution(labels);
      }
    } else {
      var v :| v in Distribution(labels);
      assert v in labels;
    }
  }

  /**
   * After normalisation, "Laki-laki" is counted once for every raw "M" and every
   * raw "Laki-laki", and "Perempuan" once for every raw "F" and every raw
   * "Perempuan".
   */
  lemma {:induction false} NormalizedCounts(raw: seq<string>)
    ensures Count(Normalize(raw), Male) == Count(raw, MaleCode) + Count(raw, Male)
    ensures Count(Normalize(raw), Female) == Count(raw, FemaleCode) + Count(raw, Female)
  {
    LabelsDiffer();
    if raw != [] {
      NormalizedCounts(raw[1..]);
      assert Normalize(raw)[1..] == Normalize(raw[1..]);
    }
  }

  /** ["M", "F", "M", "X"] is shown as ["Laki-laki", "Perempuan", "Laki-laki", "X"]. */
  lemma NormalizeExample()
    ensures Normalize(["M", "F", "M", "X"]) == [Male, Female, Male, "X"]
  {
    assert |"X"| == 1;
  }

  /** Of ["Laki-laki", "Perempuan", "Laki-laki", "X"], two rows count as male and one as female; "X" is left out. */
  lemma DistributionExample()
    ensures Distribution([Male, Female, Male, "X"]) == map[Male := 2, Female := 1]
  {
    LabelsDiffer();
    var shown := [Male, Female, Male, "X"];
    assert !IsGender("X") by {
      assert |"X"| == 1;
    }
    DistributionCounts(shown);
    assert Count(shown, Male) == 2 && Count(shown, Female) == 1 by {
      assert Count(["X"], Male) == 0 && Count(["X"], Female) == 0 by {
        assert ["X"][1..] == [];
      }
      assert Count([Male, "X"], Male) == 1 && Count([Male, "X"], Female) == 0 by {
        assert [Male, "X"][1..] == ["X"];
      }
      assert Count([Female, Male, "X"], Male) == 1 && Count([Female, Male, "X"], Female) == 1 by {
        assert [Female, Male, "X"][1..] == [Male, "X"];
      }
      assert shown[1..] == [Female, Male, "X"];
    }
    assert Distribution(shown).Keys == {Male, Female} by {
      assert Male in shown && Female in shown;
    }
  }
}
