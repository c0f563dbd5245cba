/** Week-start day specifications, as accepted by `normalize_weekday`:
    full names, three- and two-letter abbreviations, and the "w-" prefixed
    style, case-insensitively and with surrounding white space ignored.
    Weekdays are numbered as Python's `date.weekday()`: Monday = 0 ... Sunday = 6. */
module Weekday {
  import opened Results
  import Seqs

  const FullNames: seq<string> :=
    ["monday", "tuesday", "wednesday", "thursday", "friday", "saturday", "sunday"]
  const Abbrev3: seq<string> := ["mon", "tue", "wed", "thu", "fri", "sat", "sun"]
  const Abbrev2: seq<string> := ["mo", "tu", "we", "th", "fr", "sa", "su"]

  /** The characters Python's `str.isspace` accepts, which `str.strip()` removes. */
  const WhiteSpace: set<char> := {
    '\t', '\n', '\U{0B}', '\U{0C}', '\r', '\U{1C}', '\U{1D}', '\U{1E}', '\U{1F}', ' ',
    '\U{85}', '\U{A0}', '\U{1680}', '\U{2000}', '\U{2001}', '\U{2002}', '\U{2003}',
    '\U{2004}', '\U{2005}', '\U{2006}', '\U{2007}', '\U{2008}', '\U{2009}', '\U{200A}',
    '\U{2028}', '\U{2029}', '\U{202F}', '\U{205F}', '\U{3000}'
  }

  function LowerChar(c: char): char {
    if 'A' <= c <= 'Z' then (c as int + 32) as char else c
  }

  function UpperChar(c: char): char {
    if 'a' <= c <= 'z' then (c as int - 32) as char else c
  }

  /** ASCII case mapping of a whole string. */
  function Lower(s: string): string {
    seq(|s|, i requires 0 <= i < |s| => LowerChar(s[i]))
  }

  function Upper(s: string): string {
    seq(|s|, i requires 0 <= i < |s| => UpperChar(s[i]))
  }

  function StripLeft(s: string): string {
    if |s| > 0 && s[0] in WhiteSpace then StripLeft(s[1..]) else s
  }

  function StripRight(s: string): string {
    if |s| > 0 && s[|s| - 1] in WhiteSpace then StripRight(s[..|s| - 1]) else s
  }

  function Strip(s: string): string {
    StripRight(StripLeft(s))
  }

  /** The lookup key: lower-cased, stripped, with one leading "w-" removed. */
  function Key(spec: string): string {
    var t := Strip(Lower(spec));
    if |t| >= 2 && t[..2] == "w-" then t[2..] else t
  }

  /** `normalize_weekday`: the tables are consulted in the order full names,
      three-letter, two-letter; anything else raises `ValueError` naming the
      normalised specification. */
  function NormalizeWeekday(spec: string): (r: Result<nat>)
    ensures r.Success? ==> r.value < 7
    ensures r.Success? ==>
      FullNames[r.value] == Key(spec) || Abbrev3[r.value] == Key(spec) || Abbrev2[r.value] == Key(spec)
    ensures r.Failure? <==>
      Key(spec) !in FullNames && Key(spec) !in Abbrev3 && Key(spec) !in Abbrev2
    ensures r.Failure? ==> r.error == InvalidDaySpec(Key(spec))
  {
    var key := Key(spec);
    if key in FullNames then Success(Seqs.FirstIndex(FullNames, key))
    else if key in Abbrev3 then Success(Seqs.FirstIndex(Abbrev3, key))
    else if key in Abbrev2 then Success(Seqs.FirstIndex(Abbrev2, key))
    else Failure(InvalidDaySpec(key))
  }

  /** A string already in lower case and free of surrounding white space is its own key
      unless it starts with "w-". */
  lemma KeyOfPlain(s: string)
    requires forall i :: 0 <= i < |s| ==> 'a' <= s[i] <= 'z'
    ensures Key(s) == s
  {
    Unchanged(s);
    if |s| >= 2 {
      assert s[1] != '-';
    }
  }

  /** Lower-case letters and dashes are neither case-mapped nor stripped. */
  lemma Unchanged(s: string)
    requires forall i :: 0 <= i < |s| ==> 'a' <= s[i] <= 'z' || s[i] == '-'
    ensures Lower(s) == s && Strip(s) == s
  {
    assert Lower(s) == s;
    if |s| > 0 {
      NotSpace(s[0]);
      NotSpace(s[|s| - 1]);
    }
  }

  lemma NotSpace(c: char)
    requires 'a' <= c <= 'z' || c == '-'
    ensures c !in WhiteSpace
  {
  }

  /** The tables hold lower-case ASCII words; they are told apart by length
      (at least 6, exactly 3, exactly 2) and hold no repeated entry. */
  lemma TableFacts(d: nat)
    requires d < 7
    ensures forall i :: 0 <= i < |FullNames[d]| ==> 'a' <= FullNames[d][i] <= 'z'
    ensures forall i :: 0 <= i < |Abbrev3[d]| ==> 'a' <= Abbrev3[d][i] <= 'z'
    ensures forall i :: 0 <= i < |Abbrev2[d]| ==> 'a' <= Abbrev2[d][i] <= 'z'
    ensures |FullNames[d]| >= 6 && |Abbrev3[d]| == 3 && |Abbrev2[d]| == 2
    ensures forall j :: 0 <= j < d ==> FullNames[j] != FullNames[d]
    ensures forall j :: 0 <= j < d ==> Abbrev3[j] != Abbrev3[d]
    ensures forall j :: 0 <= j < d ==> Abbrev2[j] != Abbrev2[d]
  {
  }

  lemma LengthsSeparateTables(s: string)
    ensures |s| >= 6 ==> s !in Abbrev3 && s !in Abbrev2
    ensures |s| == 3 ==> s !in FullNames && s !in Abbrev2
    ensures |s| == 2 ==> s !in FullNames && s !in Abbrev3
  {
  }

  /** A table entry whose key is itself is found at its own position. */
  lemma {:induction false} FoundAt(table: seq<string>, d: nat)
    requires d < |table|
    requires forall j :: 0 <= j < d ==> table[j] != table[d]
    ensures Seqs.FirstIndex(table, table[d]) == d
  {
  }

  /** Every name in the three tables maps back to its weekday number. */
  lemma {:induction false} NamesRoundTrip(d: nat)
    requires d < 7
    ensures NormalizeWeekday(FullNames[d]) == Success(d)
    ensures NormalizeWeekday(Abbrev3[d]) == Success(d)
    ensures NormalizeWeekday(Abbrev2[d]) == Success(d)
  {
    TableFacts(d);
    FullNameRoundTrip(d);
    Abbrev3RoundTrip(d);
    Abbrev2RoundTrip(d);
  }

  lemma {:induction false} FullNameRoundTrip(d: nat)
    requires d < 7
    ensures NormalizeWeekday(FullNames[d]) == Success(d)
  {
    TableFacts(d);
    var s := FullNames[d];
    KeyOfPlain(s);
    FoundAt(FullNames, d);
  }

  lemma {:induction false} Abbrev3RoundTrip(d: nat)
    requires d < 7
    ensures NormalizeWeekday(Abbrev3[d]) == Success(d)
  {
    TableFacts(d);
    var s := Abbrev3[d];
    KeyOfPlain(s);
    LengthsSeparateTables(s);
    FoundAt(Abbrev3, d);
  }

  lemma {:induction false} Abbrev2RoundTrip(d: nat)
    requires d < 7
    ensures NormalizeWeekday(Abbrev2[d]) == Success(d)
  {
    TableFacts(d);
    var s := Abbrev2[d];
    KeyOfPlain(s);
    LengthsSeparateTables(s);
    FoundAt(Abbrev2, d);
  }

  lemma LowerUpper(s: string)
    ensures Lower(Upper(s)) == Lower(s)
  {
    assert forall i :: 0 <= i < |s| ==> LowerChar(UpperChar(s[i])) == LowerChar(s[i]);
  }

  /** Upper-casing the specification never changes the outcome. */
  lemma CaseInsensitive(spec: string)
    ensures NormalizeWeekday(Upper(spec)) == NormalizeWeekday(spec)
  {
    LowerUpper(spec);
  }

  /** The "w-" style: prefixing a table name with "w-" selects the same weekday. */
  lemma {:induction false} PrefixedStyle(d: nat)
    requires d < 7
    ensures NormalizeWeekday("w-" + FullNames[d]) == Success(d)
    ensures NormalizeWeekday("w-" + Abbrev3[d]) == Success(d)
    ensures NormalizeWeekday("w-" + Abbrev2[d]) == Success(d)
  {
    TableFacts(d);
    NamesRoundTrip(d);
    PrefixChangesNothing(FullNames[d]);
    PrefixChangesNothing(Abbrev3[d]);
    PrefixChangesNothing(Abbrev2[d]);
  }

  /** A lower-case word and the same word behind "w-" are normalised alike. */
  lemma {:induction false} PrefixChangesNothing(s: string)
    requires forall i :: 0 <= i < |s| ==> 'a' <= s[i] <= 'z'
    ensures NormalizeWeekday("w-" + s) == NormalizeWeekday(s)
  {
    PrefixedKey(s);
    KeyOfPlain(s);
  }

  lemma PrefixedKey(s: string)
    requires forall i :: 0 <= i < |s| ==> 'a' <= s[i] <= 'z'
    ensures Key("w-" + s) == s
  {
    var t := "w-" + s;
    Unchanged(t);
    assert t[..2] == "w-";
    assert t[2..] == s;
  }

  /** The error examples: neither "invalid" nor "xyz" names a weekday. */
  lemma RejectsUnknown()
    ensures NormalizeWeekday("invalid").Failure?
    ensures NormalizeWeekday("xyz").Failure?
  {
    KeyOfPlain("invalid");
    NotAName("invalid");
    KeyOfPlain("xyz");
    NotAName("xyz");
  }

  /** Every name starts with one of the letters m, t, w, f or s. */
  lemma NotAName(s: string)
    requires |s| > 0 && s[0] != 'm' && s[0] != 't' && s[0] != 'w' && s[0] != 'f' && s[0] != 's'
    ensures s !in FullNames && s !in Abbrev3 && s !in Abbrev2
  {
    forall d | 0 <= d < 7
      ensures FullNames[d] != s && Abbrev3[d] != s && Abbrev2[d] != s
    {
      assert FullNames[d][0] == Abbrev3[d][0] == Abbrev2[d][0];
    }
  }
}
