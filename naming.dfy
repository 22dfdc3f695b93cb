/**
  Derivation of a table name from the stem of a snapshot CSV file
  (src/load_to_duckdb.py, lines 46-51).

  A stem holding a `DD-MM-YYYY` run of ASCII digits names the table
  `credit_data_YYYYMMDD`, taken from the leftmost such run; any other stem is
  lower-cased and has its spaces, then its hyphens, replaced by underscores.
  The digit run is not checked to be a calendar date.
 */
module TableNaming {
  import opened Wrappers

  /** The prefix of every dated table name. */
  const DatedPrefix: string := "credit_data_"

  /** The prefix of every stem the loader's glob `Credit Data - *.csv` finds. */
  const GlobPrefix: string := "Credit Data - "

  predicate IsDigit(c: char) {
    '0' <= c <= '9'
  }

  /** The pattern `(\d{2})-(\d{2})-(\d{4})`, over ASCII digits, matches at position `i` of `s`. */
  predicate DateAt(s: string, i: nat) {
    && i + 10 <= |s|
    && IsDigit(s[i]) && IsDigit(s[i + 1])
    && s[i + 2] == '-'
    && IsDigit(s[i + 3]) && IsDigit(s[i + 4])
    && s[i + 5] == '-'
    && IsDigit(s[i + 6]) && IsDigit(s[i + 7]) && IsDigit(s[i + 8]) && IsDigit(s[i + 9])
  }

  /** The leftmost position at or after `from` where the date pattern matches, as `re.search` finds it. */
  function FindDate(s: string, from: nat): (r: Option<nat>)
    ensures r.Some? ==> from <= r.value && DateAt(s, r.value)
    ensures r.Some? ==> forall j :: from <= j < r.value ==> !DateAt(s, j)
    ensures r.None? ==> forall j :: from <= j ==> !DateAt(s, j)
    decreases |s| - from
  {
    if |s| < from + 10 then None
    else if DateAt(s, from) then Some(from)
    else FindDate(s, from + 1)
  }

  /** ASCII lower-casing of one character. */
  function LowerChar(c: char): (lower: char) {
    if 'A' <= c <= 'Z' then (c as int - 'A' as int + 'a' as int) as char else c
  }

  /** `str.lower()`, restricted to ASCII letters. */
  function Lower(s: string): (lowered: string) {
    if s == [] then [] else [LowerChar(s[0])] + Lower(s[1..])
  }

  /** `str.replace(from, to)` for one-character `from` and `to`. */
  function Replace(s: string, from: char, to: char): (replaced: string) {
    if s == [] then [] else [if s[0] == from then to else s[0]] + Replace(s[1..], from, to)
  }

  /** `stem.lower().replace(" ", "_").replace("-", "_")`. */
  function Normalize(stem: string): (name: string) {
    Replace(Replace(Lower(stem), ' ', '_'), '-', '_')
  }

  /** The name a CSV snapshot with this stem is loaded under. */
  function DeriveTableName(stem: string): (name: string) {
    match FindDate(stem, 0)
    case Some(i) =>
      var dd, mm, yyyy := stem[i..i + 2], stem[i + 3..i + 5], stem[i + 6..i + 10];
      DatedPrefix + yyyy + mm + dd
    case None => Normalize(stem)
  }

  /** A character a plain SQL identifier may hold: a lower-case ASCII letter, a digit or `_`. */
  predicate IsIdentChar(c: char) {
    ('a' <= c <= 'z') || IsDigit(c) || c == '_'
  }

  /** Starts with a lower-case letter and holds only identifier characters. */
  predicate IsSafeIdentifier(s: string) {
    |s| > 0 && 'a' <= s[0] <= 'z' && forall k :: 0 <= k < |s| ==> IsIdentChar(s[k])
  }

  lemma {:induction false} LowerAt(s: string, k: nat)
    requires k < |s|
    ensures |Lower(s)| == |s| && Lower(s)[k] == LowerChar(s[k])
  {
    if k > 0 {
      LowerAt(s[1..], k - 1);
    } else if |s| > 1 {
      LowerAt(s[1..], 0);
    } else {
      assert Lower(s[1..]) == [];
    }
  }

  lemma {:induction false} LowerLength(s: string)
    ensures |Lower(s)| == |s|
  {
    if s != [] {
      LowerLength(s[1..]);
    }
  }

  lemma {:induction false} ReplaceAt(s: string, from: char, to: char, k: nat)
    requires k < |s|
    ensures |Replace(s, from, to)| == |s|
    ensures Replace(s, from, to)[k] == if s[k] == from then to else s[k]
  {
    ReplaceLength(s[1..], from, to);
    if k > 0 {
      ReplaceAt(s[1..], from, to, k - 1);
    }
  }

  lemma {:induction false} ReplaceLength(s: string, from: char, to: char)
    ensures |Replace(s, from, to)| == |s|
  {
    if s != [] {
      ReplaceLength(s[1..], from, to);
    }
  }

  /** Character by character, the undated name lower-cases the stem and turns spaces and hyphens into `_`. */
  lemma NormalizeAt(stem: string, k: nat)
    requires k < |stem|
    ensures |Normalize(stem)| == |stem|
    ensures Normalize(stem)[k] == if stem[k] == ' ' || stem[k] == '-' then '_' else LowerChar(stem[k])
  {
    LowerAt(stem, k);
    ReplaceAt(Lower(stem), ' ', '_', k);
    ReplaceAt(Replace(Lower(stem), ' ', '_'), '-', '_', k);
  }

  /** `re.search` reports the leftmost match: a match at `i` with none before it is the one found. */
  lemma LeftmostMatchFound(stem: string, i: nat)
    requires DateAt(stem, i)
    requires forall j :: 0 <= j < i ==> !DateAt(stem, j)
    ensures FindDate(stem, 0) == Some(i)
  {
  }

  /**
    A stem with a `DD-MM-YYYY` digit run at `i`, and none to the left of it,
    names `credit_data_` followed by the year, the month and the day of that run.
   */
  lemma DatedStemName(stem: string, i: nat)
    requires DateAt(stem, i)
    requires forall j :: 0 <= j < i ==> !DateAt(stem, j)
    ensures DeriveTableName(stem) == DatedPrefix + stem[i + 6..i + 10] + stem[i + 3..i + 5] + stem[i..i + 2]
  {
    LeftmostMatchFound(stem, i);
  }

  /**
    A dated name is twenty characters long, starts with `credit_data_`, ends in
    eight digits and is a safe SQL identifier.
   */
  lemma DatedNameShape(stem: string, i: nat)
    requires DateAt(stem, i)
    requires forall j :: 0 <= j < i ==> !DateAt(stem, j)
    ensures |DeriveTableName(stem)| == 20
    ensures DeriveTableName(stem)[..12] == DatedPrefix
    ensures forall k :: 12 <= k < 20 ==> IsDigit(DeriveTableName(stem)[k])
    ensures IsSafeIdentifier(DeriveTableName(stem))
  {
    DatedStemName(stem, i);
    var yyyy, mm, dd := stem[i + 6..i + 10], stem[i + 3..i + 5], stem[i..i + 2];
    var name := DatedPrefix + yyyy + mm + dd;
    assert |name| == 20;
    assert name[..12] == DatedPrefix;
    forall k | 12 <= k < 20
      ensures IsDigit(name[k])
    {
      if k < 16 {
        assert name[k] == yyyy[k - 12] == stem[i + 6 + (k - 12)];
      } else if k < 18 {
        assert name[k] == mm[k - 16] == stem[i + 3 + (k - 16)];
      } else {
        assert name[k] == dd[k - 18] == stem[i + (k - 18)];
      }
    }
    forall k | 0 <= k < 12
      ensures IsIdentChar(name[k])
    {
      assert name[k] == DatedPrefix[k];
    }
  }

  /**
    A stem with no `DD-MM-YYYY` digit run names its own normalisation: the same
    length, no space and no hyphen left, every other character lower-cased.
   */
  lemma UndatedStemName(stem: string)
    requires forall j :: 0 <= j < |stem| ==> !DateAt(stem, j)
    ensures DeriveTableName(stem) == Normalize(stem)
    ensures |DeriveTableName(stem)| == |stem|
    ensures forall k :: 0 <= k < |stem| ==> DeriveTableName(stem)[k] != ' ' && DeriveTableName(stem)[k] != '-'
    ensures forall k :: 0 <= k < |stem| && stem[k] != ' ' && stem[k] != '-' ==>
      DeriveTableName(stem)[k] == LowerChar(stem[k])
  {
    assert FindDate(stem, 0).None?;
    LowerLength(stem);
    ReplaceLength(Lower(stem), ' ', '_');
    ReplaceLength(Replace(Lower(stem), ' ', '_'), '-', '_');
    forall k | 0 <= k < |stem|
      ensures DeriveTableName(stem)[k] == if stem[k] == ' ' || stem[k] == '-' then '_' else LowerChar(stem[k])
    {
      NormalizeAt(stem, k);
    }
  }

  /** Every stem the glob finds is loaded under a name starting `credit_data_`, dated or not. */
  lemma GlobStemNamePrefix(stem: string)
    requires |GlobPrefix| <= |stem| && stem[..|GlobPrefix|] == GlobPrefix
    ensures |DatedPrefix| <= |DeriveTableName(stem)|
    ensures DeriveTableName(stem)[..|DatedPrefix|] == DatedPrefix
  {
    match FindDate(stem, 0)
    case Some(i) =>
    case None =>
      var name := Normalize(stem);
      NormalizeAt(stem, 0);
      forall k | 0 <= k < |DatedPrefix|
        ensures name[k] == DatedPrefix[k]
      {
        NormalizeAt(stem, k);
        assert stem[k] == GlobPrefix[k];
      }
      assert name[..|DatedPrefix|] == DatedPrefix;
  }

  /** The loader's own example: the snapshot `Credit Data - 01-01-2026` is loaded into `credit_data_20260101`. */
  lemma DatedExample(stem: string)
    requires stem == "Credit Data - 01-01-2026"
    ensures DeriveTableName(stem) == "credit_data_20260101"
  {
    assert DateAt(stem, 14);
    forall j | 0 <= j < 14
      ensures !DateAt(stem, j)
    {
    }
    DatedStemName(stem, 14);
  }

  /** An undated stem: `Some Other File` names `some_other_file`. */
  lemma UndatedExample(stem: string)
    requires stem == "Some Other File"
    ensures DeriveTableName(stem) == "some_other_file"
  {
    forall j | 0 <= j < |stem|
      ensures !DateAt(stem, j)
    {
      assert !IsDigit(stem[j]);
    }
    UndatedStemName(stem);
    forall k | 0 <= k < |stem|
      ensures DeriveTableName(stem)[k] == "some_other_file"[k]
    {
      NormalizeAt(stem, k);
    }
  }

  /** The pattern is not a date check: a `99-99-9999` run names a table, wherever it stands in the stem. */
  lemma NotADateValidator(stem: string)
    requires stem == "Export 99-99-9999 v2"
    ensures DeriveTableName(stem) == "credit_data_99999999"
  {
    assert DateAt(stem, 7);
    forall j | 0 <= j < 7
      ensures !DateAt(stem, j)
    {
    }
    DatedStemName(stem, 7);
  }

  /** Digit runs that overlap are matched leftmost: in `123-45-67890` the match starts at the `2`. */
  lemma LeftmostOverlapExample(stem: string)
    requires stem == "123-45-67890"
    ensures DeriveTableName(stem) == "credit_data_67894523"
  {
    assert !DateAt(stem, 0) && DateAt(stem, 1);
    DatedStemName(stem, 1);
  }
}
