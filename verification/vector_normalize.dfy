/**
 Word cleaning and row filtering of the vector-normalisation script.

 A vector file is read with `csv.reader(f, delimiter=' ')`, so each line is a
 row of text fields: the word first, then its coordinates (a trailing
 delimiter leaves an empty field). `load_vectors` maps every cleaned word to
 its non-empty coordinate fields; `normalize` classifies each kept row by the
 size of its vector's norm and writes the normal ones back out with every
 coordinate divided by the norm.

 Floating point is abstracted: coordinates stay as their text, "the norm is
 below 1e-2" is a predicate supplied by the caller, and a divided coordinate
 is recorded as `Scaled(text)`.
 */
module VectorNormalize {
  import opened Strings

  /** One line of the vector file, split on single spaces. */
  type Row = seq<string>

  /** Words shorter than this are skipped. */
  const MinWordLength: nat := 2

  /**
   `re.sub('[^a-z]+', '', field.strip().lower())`: the ASCII letters of the
   field, in order, in lower case, and nothing else.
   */
  function CleanWord(field: string): (w: string)
    ensures AllLowerLetters(w)
  {
    KeepLowerLetters(Lower(Strip(field)))
  }

  /**
   The cleaned word is the field's ASCII letters, lower-cased: the strip
   makes no difference, and no other character survives.
   */
  lemma CleanWordIsLoweredLetters(field: string)
    ensures CleanWord(field) == Lower(AsciiLetters(field))
  {
    KeepLowerLettersIgnoresStrip(field);
    KeepLowerLettersOfLower(field);
  }

  /** Cleaning a cleaned word gives it back unchanged. */
  lemma CleanWordIdempotent(field: string)
    ensures CleanWord(CleanWord(field)) == CleanWord(field)
  {
    var w := CleanWord(field);
    StripOfLetters(w);
    LowerOfLowerLetters(w);
    KeepLowerLettersOfLowerLetters(w);
  }

  /** A row both scripts keep: it has a first field, and that field cleans to at least two letters. */
  predicate Kept(row: Row) {
    |row| > 0 && |CleanWord(row[0])| >= MinWordLength
  }

  /** `[x for x in fields if len(x) > 0]`: the fields that are not empty, in order. */
  function NonEmptyFields(fields: seq<string>): (r: seq<string>)
    ensures forall i :: 0 <= i < |r| ==> |r[i]| > 0
    ensures |r| <= |fields|
  {
    if |fields| == 0 then []
    else if |fields[0]| > 0 then [fields[0]] + NonEmptyFields(fields[1..])
    else NonEmptyFields(fields[1..])
  }

  /** Every non-empty field is kept, as often as it occurs. */
  lemma {:induction false} NonEmptyFieldsKeepsFields(fields: seq<string>)
    ensures forall x :: x != "" ==> multiset(NonEmptyFields(fields))[x] == multiset(fields)[x]
  {
    if |fields| > 0 {
      assert fields == [fields[0]] + fields[1..];
      NonEmptyFieldsKeepsFields(fields[1..]);
    }
  }

  /** The filter keeps a non-empty field and drops an empty one. */
  lemma NonEmptyFieldsOne(x: string)
    ensures NonEmptyFields([x]) == if |x| > 0 then [x] else []
  {
  }

  /** The filter works field by field, so the kept fields stay in their original order. */
  lemma {:induction false} NonEmptyFieldsAppend(a: seq<string>, b: seq<string>)
    ensures NonEmptyFields(a + b) == NonEmptyFields(a) + NonEmptyFields(b)
  {
    if |a| > 0 {
      assert (a + b)[0] == a[0];
      assert (a + b)[1..] == a[1..] + b;
      NonEmptyFieldsAppend(a[1..], b);
    } else {
      assert a + b == b;
    }
  }

  /** The coordinate fields of a row, with empty fields left out. */
  function Tokens(row: Row): seq<string>
    requires |row| > 0
  {
    NonEmptyFields(row[1..])
  }

  /** No later kept row of `rows` has the same cleaned word as row `i`. */
  ghost predicate LastWithWord(rows: seq<Row>, i: nat)
    requires i < |rows| && |rows[i]| > 0
  {
    forall j :: i < j < |rows| && Kept(rows[j]) ==> CleanWord(rows[j][0]) != CleanWord(rows[i][0])
  }

  /**
   `load_vectors`: rows without fields and rows whose word cleans to fewer
   than two letters are skipped; every other row stores its non-empty
   coordinate fields under its cleaned word, overwriting an earlier row with
   the same word.
   */
  function LoadVectors(rows: seq<Row>): (m: map<string, seq<string>>)
    ensures |m| <= |rows|
    decreases |rows|
  {
    if |rows| == 0 then map[]
    else
      var n := |rows|;
      var earlier := rows[..n - 1];
      var m := LoadVectors(earlier);
      var row := rows[n - 1];
      if |row| == 0 then m
      else
        var word := CleanWord(row[0]);
        if |word| < MinWordLength then m
        else m[word := Tokens(row)]
  }

  /**
   Every stored word has at least two letters, all of them `a`..`z`, and
   every stored coordinate list holds only non-empty fields.
   */
  lemma {:induction false} LoadVectorsEntries(rows: seq<Row>)
    ensures forall w :: w in LoadVectors(rows) ==> |w| >= MinWordLength && AllLowerLetters(w)
    ensures forall w :: w in LoadVectors(rows) ==> forall k :: 0 <= k < |LoadVectors(rows)[w]| ==> |LoadVectors(rows)[w][k]| > 0
    decreases |rows|
  {
    if |rows| > 0 {
      LoadVectorsEntries(rows[..|rows| - 1]);
    }
  }

  /** The rows both scripts keep, in file order. */
  function Survivors(rows: seq<Row>): (r: seq<Row>)
    ensures forall row :: row in r <==> row in rows && Kept(row)
    decreases |rows|
  {
    if |rows| == 0 then []
    else
      var earlier := rows[..|rows| - 1];
      var row := rows[|rows| - 1];
      assert rows == earlier + [row];
      Survivors(earlier) + (if Kept(row) then [row] else [])
  }

  /** Every kept row survives as often as it occurs in the input; no other row survives. */
  lemma {:induction false} SurvivorsCount(rows: seq<Row>)
    ensures forall row :: multiset(Survivors(rows))[row] == if Kept(row) then multiset(rows)[row] else 0
    decreases |rows|
  {
    if |rows| > 0 {
      var earlier := rows[..|rows| - 1];
      var row := rows[|rows| - 1];
      assert rows == earlier + [row];
      SurvivorsCount(earlier);
    }
  }

  /** The filter works row by row, so the survivors keep their file order. */
  lemma {:induction false} SurvivorsAppend(a: seq<Row>, b: seq<Row>)
    ensures Survivors(a + b) == Survivors(a) + Survivors(b)
    decreases |b|
  {
    if |b| == 0 {
      assert a + b == a;
    } else {
      var earlier := b[..|b| - 1];
      var row := b[|b| - 1];
      assert (a + b)[..|a + b| - 1] == a + earlier;
      assert (a + b)[|a + b| - 1] == row;
      SurvivorsAppend(a, earlier);
      var extra := if Kept(row) then [row] else [];
      assert Survivors(a) + Survivors(earlier) + extra == Survivors(a) + (Survivors(earlier) + extra);
    }
  }

  /**
   A kept row's norm is small when its vector is empty (`np.linalg.norm([])`
   is 0) or when `smallNorm` says the norm of its coordinates is below `1e-2`.
   */
  predicate ZeroNorm(row: Row, smallNorm: seq<string> -> bool)
    requires |row| > 0
  {
    |Tokens(row)| == 0 || smallNorm(Tokens(row))
  }

  /** The kept rows whose norm is small: counted in `countnorm0` and not written. */
  function ZeroNormRows(rows: seq<Row>, smallNorm: seq<string> -> bool): seq<Row>
    decreases |rows|
  {
    if |rows| == 0 then []
    else
      var row := rows[|rows| - 1];
      ZeroNormRows(rows[..|rows| - 1], smallNorm)
        + (if Kept(row) && ZeroNorm(row, smallNorm) then [row] else [])
  }

  /** The kept rows whose norm is not small: counted in `countnormal` and written. */
  function NormalRows(rows: seq<Row>, smallNorm: seq<string> -> bool): seq<Row>
    decreases |rows|
  {
    if |rows| == 0 then []
    else
      var row := rows[|rows| - 1];
      NormalRows(rows[..|rows| - 1], smallNorm) + (if Kept(row) && !ZeroNorm(row, smallNorm) then [row] else [])
  }

  /** A row is in the class its norm decides exactly when it is a kept row of the input. */
  lemma {:induction false} ClassMembership(rows: seq<Row>, smallNorm: seq<string> -> bool)
    ensures forall row :: row in ZeroNormRows(rows, smallNorm) <==> row in rows && Kept(row) && ZeroNorm(row, smallNorm)
    ensures forall row :: row in NormalRows(rows, smallNorm) <==> row in rows && Kept(row) && !ZeroNorm(row, smallNorm)
    decreases |rows|
  {
    if |rows| > 0 {
      var earlier := rows[..|rows| - 1];
      assert rows == earlier + [rows[|rows| - 1]];
      ClassMembership(earlier, smallNorm);
    }
  }

  /**
   A kept row with no non-empty coordinate has norm 0, so it is counted as
   zero-norm and never written, whatever `smallNorm` says.
   */
  lemma EmptyVectorNeverWritten(rows: seq<Row>, smallNorm: seq<string> -> bool, row: Row)
    requires row in rows && Kept(row) && |Tokens(row)| == 0
    ensures row in ZeroNormRows(rows, smallNorm)
    ensures row !in NormalRows(rows, smallNorm)
  {
    ClassMembership(rows, smallNorm);
  }

  /** Every kept row is either a zero-norm row or a normal row, never both. */
  lemma {:induction false} ClassesPartitionSurvivors(rows: seq<Row>, smallNorm: seq<string> -> bool)
    ensures |ZeroNormRows(rows, smallNorm)| + |NormalRows(rows, smallNorm)| == |Survivors(rows)|
    ensures forall row :: !(row in ZeroNormRows(rows, smallNorm) && row in NormalRows(rows, smallNorm))
    decreases |rows|
  {
    ClassMembership(rows, smallNorm);
    if |rows| > 0 {
      ClassesPartitionSurvivors(rows[..|rows| - 1], smallNorm);
    }
  }

  /** A field of a written row: text copied from the input, or a coordinate divided by the norm. */
  datatype OutField = Text(text: string) | Scaled(original: string)

  /**
   `out` is what `normalize` writes for `row`: as many fields as the input,
   the cleaned word first, every non-empty coordinate divided by the norm,
   and every empty field left empty.
   */
  ghost predicate Rewritten(row: Row, out: seq<OutField>) {
    && |row| > 0
    && |out| == |row|
    && out[0] == Text(CleanWord(row[0]))
    && forall i :: 1 <= i < |row| ==> out[i] == (if row[i] == "" then Text("") else Scaled(row[i]))
  }

  /**
   Builds the output row: a copy of the row with the cleaned word in
   field 0, then every non-empty field from index 1 on replaced by its
   scaled value.
   */
  method RewriteRow(row: Row) returns (out: seq<OutField>)
    requires |row| > 0
    ensures Rewritten(row, out)
  {
    out := seq(|row|, i requires 0 <= i < |row| => Text(row[i]));
    out := out[0 := Text(CleanWord(row[0]))];
    var i := 1;
    while i < |out|
      invariant 1 <= i <= |out| == |row|
      invariant out[0] == Text(CleanWord(row[0]))
      invariant forall k :: 1 <= k < i ==> out[k] == (if row[k] == "" then Text("") else Scaled(row[k]))
      invariant forall k :: i <= k < |out| ==> out[k] == Text(row[k])
    {
      if out[i].Text? && |out[i].text| > 0 {
        out := out[i := Scaled(out[i].text)];
      }
      i := i + 1;
    }
  }

  /**
   `normalize`: walks the rows in order, skips those without fields or with
   a word shorter than two letters, counts the rest as zero-norm or normal,
   and writes the normal ones rewritten, in order.
   */
  method Normalize(rows: seq<Row>, smallNorm: seq<string> -> bool)
    returns (countNorm0: nat, countNormal: nat, written: seq<seq<OutField>>)
    ensures countNorm0 + countNormal == |Survivors(rows)|
    ensures countNorm0 == |ZeroNormRows(rows, smallNorm)|
    ensures countNormal == |written| == |NormalRows(rows, smallNorm)|
    ensures forall k :: 0 <= k < |written| ==> Rewritten(NormalRows(rows, smallNorm)[k], written[k])
  {
    countNorm0, countNormal, written := 0, 0, [];
    var i := 0;
    while i < |rows|
      invariant 0 <= i <= |rows|
      invariant countNorm0 == |ZeroNormRows(rows[..i], smallNorm)|
      invariant countNormal == |written| == |NormalRows(rows[..i], smallNorm)|
      invariant forall k :: 0 <= k < |written| ==> Rewritten(NormalRows(rows[..i], smallNorm)[k], written[k])
    {
      var row := rows[i];
      assert rows[..i + 1][..i] == rows[..i];
      assert NormalRows(rows[..i + 1], smallNorm)
          == NormalRows(rows[..i], smallNorm) + (if Kept(row) && !ZeroNorm(row, smallNorm) then [row] else []);
      assert ZeroNormRows(rows[..i + 1], smallNorm)
          == ZeroNormRows(rows[..i], smallNorm) + (if Kept(row) && ZeroNorm(row, smallNorm) then [row] else []);
      if |row| > 0 {
        var word := CleanWord(row[0]);
        if |word| >= MinWordLength {
          if ZeroNorm(row, smallNorm) {
            countNorm0 := countNorm0 + 1;
          } else {
            countNormal := countNormal + 1;
            var out := RewriteRow(row);
            written := written + [out];
          }
        }
      }
      i := i + 1;
    }
    assert rows[..i] == rows;
    ClassesPartitionSurvivors(rows, smallNorm);
  }

  /** The words of the kept rows among `rows`. */
  ghost function KeptWords(rows: seq<Row>): set<string> {
    set i | 0 <= i < |rows| && Kept(rows[i]) :: CleanWord(rows[i][0])
  }

  lemma KeptWordsSnoc(earlier: seq<Row>, row: Row)
    ensures KeptWords(earlier + [row]) == KeptWords(earlier) + (if Kept(row) then {CleanWord(row[0])} else {})
  {
    var rows := earlier + [row];
    var extra: set<string> := if Kept(row) then {CleanWord(row[0])} else {};
    forall w | w in KeptWords(rows) ensures w in KeptWords(earlier) + extra {
      var i :| 0 <= i < |rows| && Kept(rows[i]) && CleanWord(rows[i][0]) == w;
      if i < |earlier| {
        assert rows[i] == earlier[i];
      }
    }
    forall w | w in KeptWords(earlier) + extra ensures w in KeptWords(rows) {
      if w in KeptWords(earlier) {
        var i :| 0 <= i < |earlier| && Kept(earlier[i]) && CleanWord(earlier[i][0]) == w;
        assert rows[i] == earlier[i];
      } else {
        assert rows[|earlier|] == row;
      }
    }
  }

  /** The words `load_vectors` stores are exactly the cleaned words of the rows it keeps. */
  lemma {:induction false} LoadVectorsWords(rows: seq<Row>)
    ensures LoadVectors(rows).Keys == KeptWords(rows)
    decreases |rows|
  {
    if |rows| > 0 {
      var n := |rows|;
      var earlier := rows[..n - 1];
      var row := rows[n - 1];
      assert rows == earlier + [row];
      LoadVectorsWords(earlier);
      KeptWordsSnoc(earlier, row);
    }
  }

  /** `load_vectors` after one more row: the row's entry is stored (or overwritten) when the row is kept. */
  lemma LoadVectorsSnoc(rows: seq<Row>)
    requires |rows| > 0
    ensures var row := rows[|rows| - 1];
      LoadVectors(rows) == if Kept(row) then LoadVectors(rows[..|rows| - 1])[CleanWord(row[0]) := Tokens(row)]
                           else LoadVectors(rows[..|rows| - 1])
  {
  }

  /** A later row with the same word is what breaks `LastWithWord`, so dropping the last row keeps it. */
  lemma LastWithWordPrefix(rows: seq<Row>, i: nat)
    requires i < |rows| - 1 && |rows[i]| > 0 && LastWithWord(rows, i)
    ensures LastWithWord(rows[..|rows| - 1], i)
  {
    var earlier := rows[..|rows| - 1];
    forall j | i < j < |earlier| && Kept(earlier[j])
      ensures CleanWord(earlier[j][0]) != CleanWord(earlier[i][0])
    {
      assert earlier[j] == rows[j];
      assert earlier[i] == rows[i];
    }
  }

  /**
   A kept row that no later kept row shares its word with is the one whose
   coordinates `load_vectors` stores for that word: later rows overwrite
   earlier ones.
   */
  lemma {:induction false} LoadVectorsLastRowWins(rows: seq<Row>, i: nat)
    requires i < |rows| && Kept(rows[i]) && LastWithWord(rows, i)
    ensures CleanWord(rows[i][0]) in LoadVectors(rows)
    ensures LoadVectors(rows)[CleanWord(rows[i][0])] == Tokens(rows[i])
    decreases |rows|
  {
    var n := |rows|;
    var earlier := rows[..n - 1];
    var row := rows[n - 1];
    LoadVectorsSnoc(rows);
    if i < n - 1 {
      LastWithWordPrefix(rows, i);
      assert earlier[i] == rows[i];
      LoadVectorsLastRowWins(earlier, i);
      LoadVectorsKeepsOtherWords(rows, CleanWord(rows[i][0]));
    }
  }

  /** The last row leaves the entries of every other word as the earlier rows stored them. */
  lemma LoadVectorsKeepsOtherWords(rows: seq<Row>, word: string)
    requires |rows| > 0 && word in LoadVectors(rows[..|rows| - 1])
    requires var row := rows[|rows| - 1]; Kept(row) ==> CleanWord(row[0]) != word
    ensures word in LoadVectors(rows)
    ensures LoadVectors(rows)[word] == LoadVectors(rows[..|rows| - 1])[word]
  {
    LoadVectorsSnoc(rows);
  }

  /** At most one entry per kept row: duplicates of a word collapse into one entry. */
  lemma {:induction false} LoadVectorsSize(rows: seq<Row>)
    ensures |LoadVectors(rows)| <= |Survivors(rows)|
    decreases |rows|
  {
    if |rows| > 0 {
      var n := |rows|;
      var earlier := rows[..n - 1];
      var row := rows[n - 1];
      LoadVectorsSize(earlier);
      var m := LoadVectors(earlier);
      if Kept(row) {
        var word := CleanWord(row[0]);
        assert LoadVectors(rows) == m[word := Tokens(row)];
        assert LoadVectors(rows).Keys == m.Keys + {word};
      }
    }
  }

  /** Every row `normalize` writes carries a word that `load_vectors` also stores for the same input. */
  lemma WrittenWordsAreLoaded(rows: seq<Row>, smallNorm: seq<string> -> bool)
    ensures forall row :: row in NormalRows(rows, smallNorm) ==> Kept(row) && CleanWord(row[0]) in LoadVectors(rows)
  {
    ClassMembership(rows, smallNorm);
    LoadVectorsWords(rows);
    forall row | row in NormalRows(rows, smallNorm) ensures Kept(row) && CleanWord(row[0]) in LoadVectors(rows) {
      var i :| 0 <= i < |rows| && rows[i] == row;
      assert CleanWord(rows[i][0]) in KeptWords(rows);
    }
  }
}
