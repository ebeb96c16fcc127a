/**
 * Automatic detection of the column that holds the full names
 * (`find_name_column` in app.py).
 *
 * Each column label is trimmed of surrounding white space and lower-cased; the
 * first label whose normalised form is one of the keywords is the detected
 * column. When no label matches, detection reports absence and the user has to
 * pick the column by hand.
 */
module Columns {
  import opened Wrappers

  /** The normalised labels that identify a name column. */
  const Keywords: seq<string> := ["nama", "name"]

  /** The ASCII characters that Python's `str.isspace` accepts (and `strip` removes). */
  predicate IsSpace(c: char) {
    ('\t' <= c <= '\r') || ('\U{1C}' <= c <= '\U{1F}') || c == ' '
  }

  /** `s` without its leading white space. */
  function TrimStart(s: string): string {
    if s != [] && IsSpace(s[0]) then TrimStart(s[1..]) else s
  }

  /** `s` without its trailing white space. */
  function TrimEnd(s: string): string {
    if s != [] && IsSpace(s[|s| - 1]) then TrimEnd(s[..|s| - 1]) else s
  }

  /** Python's `str.strip()`: white space removed at both ends. */
  function Strip(s: string): string {
    TrimEnd(TrimStart(s))
  }

  /**
   * What `Strip` removes is white space, and what it keeps starts and ends with
   * something else: it is the longest infix of `s` without blanks at either end.
   */
  lemma {:induction false} StripSpec(s: string)
    ensures var r := Strip(s);
      exists lo, hi :: 0 <= lo <= hi <= |s| && r == s[lo..hi] &&
        (forall i :: 0 <= i < lo ==> IsSpace(s[i])) &&
        (forall i :: hi <= i < |s| ==> IsSpace(s[i])) &&
        (r == [] || (!IsSpace(r[0]) && !IsSpace(r[|r| - 1])))
  {
    var lo := TrimStartIndex(s);
    var t := s[lo..];
    var hi := TrimEndLength(t);
    assert Strip(s) == t[..hi] == s[lo..lo + hi];
    assert forall i :: lo + hi <= i < |s| ==> IsSpace(s[i]) by {
      forall i | lo + hi <= i < |s| ensures IsSpace(s[i]) { assert s[i] == t[i - lo]; }
    }
    if t[..hi] != [] {
      assert t[..hi][0] == t[0];
    }
  }

  /** The number of blanks `TrimStart` drops. */
  lemma {:induction false} TrimStartIndex(s: string) returns (lo: nat)
    ensures lo <= |s| && TrimStart(s) == s[lo..]
    ensures forall i :: 0 <= i < lo ==> IsSpace(s[i])
    ensures lo < |s| ==> !IsSpace(s[lo])
  {
    if s != [] && IsSpace(s[0]) {
      var k := TrimStartIndex(s[1..]);
      lo := k + 1;
      assert s[1..][k..] == s[lo..];
      forall i | 0 < i < lo ensures IsSpace(s[i]) { assert s[i] == s[1..][i - 1]; }
    } else {
      lo := 0;
    }
  }

  /** The length of what `TrimEnd` keeps. */
  lemma {:induction false} TrimEndLength(s: string) returns (hi: nat)
    ensures hi <= |s| && TrimEnd(s) == s[..hi]
    ensures forall i :: hi <= i < |s| ==> IsSpace(s[i])
    ensures hi > 0 ==> !IsSpace(s[hi - 1])
  {
    if s != [] && IsSpace(s[|s| - 1]) {
      hi := TrimEndLength(s[..|s| - 1]);
      assert s[..|s| - 1][..hi] == s[..hi];
      forall i | hi <= i < |s| ensures IsSpace(s[i]) {
        if i < |s| - 1 { assert s[i] == s[..|s| - 1][i]; }
      }
    } else {
      hi := |s|;
    }
  }

  predicate IsUpper(c: char) {
    'A' <= c <= 'Z'
  }

  function LowerChar(c: char): char {
    if IsUpper(c) then (c as int + 32) as char else c
  }

  /**
   * Python's `str.lower()`, on the ASCII letters: no upper-case letter is left,
   * each upper-case letter becomes the lower-case letter at the same place in
   * the alphabet, and every other character is kept.
   */
  function Lower(s: string): (r: string)
    ensures |r| == |s|
    ensures forall i :: 0 <= i < |r| ==> !IsUpper(r[i])
    ensures forall i :: 0 <= i < |s| && IsUpper(s[i]) ==> 'a' <= r[i] <= 'z' && r[i] as int - 'a' as int == s[i] as int - 'A' as int
    ensures forall i :: 0 <= i < |s| && !IsUpper(s[i]) ==> r[i] == s[i]
  {
    seq(|s|, i requires 0 <= i < |s| => LowerChar(s[i]))
  }

  /** Two characters that are equal, or the same letter in different case. */
  predicate SameIgnoringCase(a: char, b: char) {
    a == b || (IsUpper(a) && b as int == a as int + 32) || (IsUpper(b) && a as int == b as int + 32)
  }

  /** `s` and `t` are the same text up to the case of their letters. */
  predicate SameUpToCase(s: string, t: string) {
    |s| == |t| && forall i :: 0 <= i < |s| ==> SameIgnoringCase(s[i], t[i])
  }

  /** Texts that differ only in the case of their letters lower-case to the same text. */
  lemma LowerIgnoresCase(s: string, t: string)
    requires SameUpToCase(s, t)
    ensures Lower(s) == Lower(t)
  {
  }

  /** Trimming leading white space keeps two texts the same up to case. */
  lemma {:induction false} TrimStartIgnoresCase(s: string, t: string)
    requires SameUpToCase(s, t)
    ensures SameUpToCase(TrimStart(s), TrimStart(t))
  {
    if s != [] {
      assert SameIgnoringCase(s[0], t[0]);
      if IsSpace(s[0]) {
        TrimStartIgnoresCase(s[1..], t[1..]);
      }
    }
  }

  /** Trimming trailing white space keeps two texts the same up to case. */
  lemma {:induction false} TrimEndIgnoresCase(s: string, t: string)
    requires SameUpToCase(s, t)
    ensures SameUpToCase(TrimEnd(s), TrimEnd(t))
  {
    if s != [] {
      assert SameIgnoringCase(s[|s| - 1], t[|t| - 1]);
      if IsSpace(s[|s| - 1]) {
        TrimEndIgnoresCase(s[..|s| - 1], t[..|t| - 1]);
      }
    }
  }

  /** Detection ignores case: two labels that differ only in case are both name labels or neither. */
  lemma NameLabelIgnoresCase(a: string, b: string)
    requires SameUpToCase(a, b)
    ensures IsNameLabel(a) <==> IsNameLabel(b)
  {
    TrimStartIgnoresCase(a, b);
    TrimEndIgnoresCase(TrimStart(a), TrimStart(b));
    LowerIgnoresCase(Strip(a), Strip(b));
  }

  /** Lower-casing twice is lower-casing once. */
  lemma LowerIdempotent(s: string)
    ensures Lower(Lower(s)) == Lower(s)
  {
  }

  /** A column label as the detector compares it: `str(col).strip().lower()`. */
  function Key(heading: string): string {
    Lower(Strip(heading))
  }

  /** Whether a column label, trimmed and lower-cased, is one of the keywords. */
  predicate IsNameLabel(heading: string) {
    Key(heading) in Keywords
  }

  /**
   * The first element of `xs`, in order, that satisfies `p`, or `None` when no
   * element does: the `for` loop with an early `return` of app.py.
   */
  function FirstWhere(xs: seq<string>, p: string -> bool): (r: Option<string>)
    ensures r.None? <==> forall i :: 0 <= i < |xs| ==> !p(xs[i])
    ensures r.Some? ==>
      exists k :: 0 <= k < |xs| && xs[k] == r.value && p(xs[k]) &&
        forall j :: 0 <= j < k ==> !p(xs[j])
  {
    if xs == [] then None
    else if p(xs[0]) then Some(xs[0])
    else FirstWhere(xs[1..], p)
  }

  /**
   * The detected name column: the first label, in column order, that is a name
   * label, or `None` when there is none.
   */
  function FindNameColumn(columns: seq<string>): (r: Option<string>)
    ensures r.None? <==> forall i :: 0 <= i < |columns| ==> !IsNameLabel(columns[i])
    ensures r.Some? ==>
      exists k :: 0 <= k < |columns| && columns[k] == r.value && IsNameLabel(columns[k]) &&
        forall j :: 0 <= j < k ==> !IsNameLabel(columns[j])
  {
    FirstWhere(columns, IsNameLabel)
  }

  /**
   * The search only looks as far as the first match: on a concatenation, a match
   * in the first part wins, and the second part is searched only when the first
   * part has none.
   */
  lemma {:induction false} FirstWhereAppend(first: seq<string>, rest: seq<string>, p: string -> bool)
    ensures FirstWhere(first + rest, p) ==
      if FirstWhere(first, p).Some? then FirstWhere(first, p) else FirstWhere(rest, p)
  {
    if first != [] {
      assert (first + rest)[0] == first[0];
      assert (first + rest)[1..] == first[1..] + rest;
      FirstWhereAppend(first[1..], rest, p);
    } else {
      assert first + rest == rest;
    }
  }

  /**
   * Columns after the detected one never influence detection, and columns before
   * it are all rejected: appending columns to a list that already has a name
   * column does not change the result.
   */
  lemma FindNameColumnAppend(first: seq<string>, rest: seq<string>)
    ensures FindNameColumn(first + rest) ==
      if FindNameColumn(first).Some? then FindNameColumn(first) else FindNameColumn(rest)
  {
    FirstWhereAppend(first, rest, IsNameLabel);
  }

  lemma StripsNothing(s: string)
    requires s != [] && !IsSpace(s[0]) && !IsSpace(s[|s| - 1])
    ensures Strip(s) == s
  {
  }

  /** "Name" and "NAMA" are name labels; so is "nama" with blanks around it. */
  lemma KeywordsMatchIgnoringCaseAndSpace()
    ensures IsNameLabel("Name") && IsNameLabel("NAMA") && IsNameLabel(" nama\t")
  {
    StripsNothing("Name");
    assert Lower("Name") == "name";
    StripsNothing("NAMA");
    assert Lower("NAMA") == "nama";
    assert TrimStart(" nama\t") == "nama\t";
    assert TrimEnd("nama\t") == "nama";
    assert Lower("nama") == "nama";
  }

  /** "ID", "Score" and "Full_Name" are not name labels. */
  lemma OtherLabelsDoNotMatch()
    ensures !IsNameLabel("ID") && !IsNameLabel("Score") && !IsNameLabel("Full_Name")
  {
    StripsNothing("ID");
    assert |Lower("ID")| == 2;
    StripsNothing("Score");
    assert |Lower("Score")| == 5;
    StripsNothing("Full_Name");
    assert |Lower("Full_Name")| == 9;
  }

  /** Among "ID", "Name" and "Score", the column "Name" is detected. */
  lemma DetectsNameAmongOthers()
    ensures FindNameColumn(["ID", "Name", "Score"]) == Some("Name")
  {
    KeywordsMatchIgnoringCaseAndSpace();
    OtherLabelsDoNotMatch();
    assert ["ID", "Name", "Score"][1..] == ["Name", "Score"];
  }

  /** A label that merely contains a keyword, such as "Full_Name", is not detected. */
  lemma RejectsPartialMatch()
    ensures FindNameColumn(["ID", "Full_Name", "Score"]) == None
  {
    OtherLabelsDoNotMatch();
  }
}
