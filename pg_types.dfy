/**
 * toPgType (database/schema.go): the translation of a SQL Server column type
 * into the PostgreSQL type the filtered schema declares. The cases are tried
 * in order on the trimmed, lower-cased type text.
 */
module PgTypes {
  import opened Wrappers
  import opened Strings

  /** The largest value strconv.Atoi accepts on a 64-bit platform; larger digit runs are an error. */
  const MaxInt: nat := 9223372036854775807

  /** Types up to this length keep a bounded VARCHAR; longer ones become TEXT. */
  const MaxVarchar: nat := 255

  // ---------------------------------------------------------------- the `\((\d+)\)` group

  /** Length of the run of digits starting at `j`. */
  function DigitRun(s: string, j: nat): (n: nat)
    requires j <= |s|
    ensures j + n <= |s|
    ensures j + n == |s| || !IsDigit(s[j + n])
    decreases |s| - j
  {
    if j < |s| && IsDigit(s[j]) then 1 + DigitRun(s, j + 1) else 0
  }

  /** The run is made of digits, so it can be read as a number. */
  lemma {:induction false} DigitRunDigits(s: string, j: nat)
    requires j <= |s|
    ensures AllDigits(s[j..j + DigitRun(s, j)])
    decreases |s| - j
  {
    if j < |s| && IsDigit(s[j]) {
      DigitRunDigits(s, j + 1);
      assert s[j..j + DigitRun(s, j)] == [s[j]] + s[j + 1..j + 1 + DigitRun(s, j + 1)];
    }
  }

  /** `\((\d+)\)` matches at position `i`: an opening parenthesis, digits, a closing one. */
  predicate GroupAt(s: string, i: nat) {
    i < |s| && s[i] == '(' && DigitRun(s, i + 1) > 0 &&
    i + 1 + DigitRun(s, i + 1) < |s| && s[i + 1 + DigitRun(s, i + 1)] == ')'
  }

  /** The leftmost position at or after `from` where the group matches. */
  function FirstGroup(s: string, from: nat): (r: Option<nat>)
    ensures r.Some? ==> from <= r.value && GroupAt(s, r.value)
    ensures r.Some? ==> forall k :: from <= k < r.value ==> !GroupAt(s, k)
    ensures r.None? ==> forall k :: from <= k ==> !GroupAt(s, k)
    decreases |s| - from
  {
    if from >= |s| then None
    else if GroupAt(s, from) then Some(from)
    else FirstGroup(s, from + 1)
  }

  /**
   * The length toPgType extracts: the number in the leftmost group, or 0 when
   * there is no group or strconv.Atoi rejects the number as out of range.
   */
  function GroupLength(t: string): nat {
    match FirstGroup(t, 0)
    case None => 0
    case Some(i) =>
      var digits := t[i + 1 .. i + 1 + DigitRun(t, i + 1)];
      DigitRunDigits(t, i + 1);
      if ParseDigits(digits) <= MaxInt then ParseDigits(digits) else 0
  }

  // ---------------------------------------------------------------- the translation

  predicate IsCharFamily(t: string) {
    HasPrefix(t, "nvarchar") || HasPrefix(t, "varchar") || HasPrefix(t, "char")
  }

  /** The text the cases are tried on. */
  function Normal(sqlType: string): string {
    Lower(TrimSpace(sqlType))
  }

  function Varchar(n: nat): string {
    "VARCHAR(" + NatToString(n) + ")"
  }

  /**
   * The case analysis of toPgType on the normalised text `t`, given the
   * length `n` read from it beforehand; `upper` is the upper-cased original
   * input, returned for decimal, numeric and unknown types.
   */
  function Translate(t: string, n: nat, upper: string): string {
    if HasPrefix(t, "int(") || t == "int" then "INTEGER"
    else if HasPrefix(t, "smallint") then "SMALLINT"
    else if HasPrefix(t, "tinyint") then "SMALLINT"
    else if HasPrefix(t, "bigint") then "BIGINT"
    else if HasPrefix(t, "bit") then "BOOLEAN"
    else if HasPrefix(t, "datetime") || HasPrefix(t, "timestamp") then "TIMESTAMP"
    else if HasPrefix(t, "date") then "DATE"
    else if HasPrefix(t, "uniqueidentifier") then "UUID"
    else if HasPrefix(t, "decimal") || HasPrefix(t, "numeric") then upper
    else if HasPrefix(t, "text") then "TEXT"
    else if IsCharFamily(t) then
      if n > MaxVarchar then "TEXT" else if n > 0 then Varchar(n) else "VARCHAR"
    else upper
  }

  function ToPgType(sqlType: string): string {
    var t := Normal(sqlType);
    Translate(t, GroupLength(t), Upper(sqlType))
  }

  // ---------------------------------------------------------------- properties

  /** The translation sees its input only up to case ("Int", "INT" and "int" are one type). */
  lemma ToPgTypeFold(a: string, b: string)
    requires EqualFold(a, b)
    ensures Normal(a) == Normal(b)
    ensures ToPgType(a) == ToPgType(b)
  {
    TrimSpaceCase(a);
    TrimSpaceCase(b);
    UpperLower(a);
    UpperLower(b);
  }

  /** Upper-casing the input does not change which case applies. */
  lemma NormalUpper(s: string)
    ensures Normal(Upper(s)) == Normal(s)
  {
    TrimSpaceCase(s);
    LowerUpper(TrimSpace(s));
  }

  /** The type names toPgType returns as they are. */
  predicate IsFixedName(r: string) {
    r in {"INTEGER", "SMALLINT", "BIGINT", "BOOLEAN", "TIMESTAMP", "DATE", "UUID", "TEXT", "VARCHAR"}
  }

  /** Every result of the case analysis is a fixed type name, a bounded VARCHAR, or `upper`. */
  lemma TranslateRange(t: string, n: nat, upper: string)
    ensures var r := Translate(t, n, upper);
      IsFixedName(r) || (1 <= n <= MaxVarchar && r == Varchar(n)) || r == upper
  {
  }

  lemma TranslateDatetime(t: string, n: nat, upper: string)
    requires HasPrefix(t, "datetime")
    ensures HasPrefix(t, "date") && Translate(t, n, upper) == "TIMESTAMP"
  {
    assert t[0] == 'd';
  }

  lemma TranslateDecimal(t: string, n: nat, upper: string)
    requires HasPrefix(t, "decimal") || HasPrefix(t, "numeric")
    ensures Translate(t, n, upper) == upper
  {
    assert t[0] == 'd' ==> t[2] == 'c';
    assert t[0] == 'n' ==> t[1] == 'u';
  }

  lemma TranslateCharFamily(t: string, n: nat, upper: string)
    requires IsCharFamily(t)
    ensures Translate(t, n, upper) == if n > MaxVarchar then "TEXT" else if n > 0 then Varchar(n) else "VARCHAR"
  {
    assert t[0] == 'n' ==> t[1] == 'v';
    assert t[0] == 'n' || t[0] == 'v' || t[0] == 'c';
  }

  /** Every result is one of the fixed type names, a bounded VARCHAR, or the upper-cased input. */
  lemma ToPgTypeRange(sqlType: string)
    ensures var r := ToPgType(sqlType);
      IsFixedName(r) ||
      (exists n :: 1 <= n <= MaxVarchar && r == Varchar(n)) ||
      r == Upper(sqlType)
  {
    var t := Normal(sqlType);
    TranslateRange(t, GroupLength(t), Upper(sqlType));
  }

  /** A type that starts with "datetime" is a timestamp, although it also starts with "date". */
  lemma DatetimeBeforeDate(sqlType: string)
    requires HasPrefix(Normal(sqlType), "datetime")
    ensures HasPrefix(Normal(sqlType), "date")
    ensures ToPgType(sqlType) == "TIMESTAMP"
  {
    var t := Normal(sqlType);
    TranslateDatetime(t, GroupLength(t), Upper(sqlType));
  }

  /** decimal and numeric keep their precision: the result is the whole input, untrimmed, upper-cased. */
  lemma DecimalKeepsInput(sqlType: string)
    requires HasPrefix(Normal(sqlType), "decimal") || HasPrefix(Normal(sqlType), "numeric")
    ensures ToPgType(sqlType) == Upper(sqlType)
  {
    var t := Normal(sqlType);
    TranslateDecimal(t, GroupLength(t), Upper(sqlType));
  }

  /** The char family: TEXT above 255, VARCHAR(n) for a length n from 1 to 255, VARCHAR without one. */
  lemma CharFamilyLength(sqlType: string)
    requires IsCharFamily(Normal(sqlType))
    ensures var n := GroupLength(Normal(sqlType));
      ToPgType(sqlType) == if n > MaxVarchar then "TEXT" else if n > 0 then Varchar(n) else "VARCHAR"
  {
    var t := Normal(sqlType);
    TranslateCharFamily(t, GroupLength(t), Upper(sqlType));
  }

  /** Text without an opening parenthesis has no length (so VARCHAR, not VARCHAR(n), for a bare char type). */
  lemma NoGroup(t: string)
    requires '(' !in t
    ensures GroupLength(t) == 0
  {
  }

  /** The digits of `w + "(" + d + ")"` sit right after the parenthesis. */
  lemma DigitsInside(w: string, d: string)
    requires AllDigits(d)
    ensures var s := w + "(" + d + ")";
      |s| == |w| + |d| + 2 && s[|w|] == '(' && s[|w| + 1 + |d|] == ')' &&
      (forall k :: |w| + 1 <= k < |w| + 1 + |d| ==> IsDigit(s[k])) &&
      s[|w| + 1 .. |w| + 1 + |d|] == d
  {
    var s := w + "(" + d + ")";
    forall k | |w| + 1 <= k < |w| + 1 + |d|
      ensures IsDigit(s[k])
    {
      assert s[k] == d[k - |w| - 1];
    }
  }

  /** No parenthesis opens before position |w| of `w + "(" + d + ")"` when `w` has none. */
  lemma NoParenBefore(w: string, d: string)
    requires '(' !in w
    ensures var s := w + "(" + d + ")";
      forall k :: 0 <= k < |w| ==> s[k] != '('
  {
    var s := w + "(" + d + ")";
    forall k | 0 <= k < |w|
      ensures s[k] != '('
    {
      assert s[k] == w[k];
    }
  }

  lemma {:induction false} RunOfDigits(s: string, j: nat, n: nat)
    requires j + n < |s| && (forall k :: j <= k < j + n ==> IsDigit(s[k])) && !IsDigit(s[j + n])
    ensures DigitRun(s, j) == n
    decreases n
  {
    if n > 0 {
      RunOfDigits(s, j + 1, n - 1);
    }
  }

  lemma {:induction false} Leftmost(s: string, from: nat, i: nat)
    requires from <= i < |s| && GroupAt(s, i)
    requires forall k :: from <= k < i ==> s[k] != '('
    ensures FirstGroup(s, from) == Some(i)
    decreases i - from
  {
    if from < i {
      Leftmost(s, from + 1, i);
    }
  }

  /** In `w + "(" + d + ")"`, with no parenthesis in `w`, the leftmost group is the one around `d`. */
  lemma GroupAfter(w: string, d: string)
    requires '(' !in w && d != [] && AllDigits(d)
    ensures var s := w + "(" + d + ")";
      FirstGroup(s, 0) == Some(|w|) && DigitRun(s, |w| + 1) == |d|
  {
    var s := w + "(" + d + ")";
    DigitsInside(w, d);
    RunOfDigits(s, |w| + 1, |d|);
    NoParenBefore(w, d);
    Leftmost(s, 0, |w|);
  }

  /** The length read from `w + "(" + d + ")"` when the word `w` holds no parenthesis is the number `d` spells. */
  lemma GroupLengthAfter(w: string, d: string)
    requires '(' !in w && d != [] && AllDigits(d)
    ensures GroupLength(w + "(" + d + ")") == if ParseDigits(d) <= MaxInt then ParseDigits(d) else 0
  {
    GroupAfter(w, d);
    DigitsInside(w, d);
  }

  /** The length written after a parenthesis-free word is the length read back. */
  lemma LengthRoundTrip(w: string, n: nat)
    requires '(' !in w && n <= MaxInt
    ensures GroupLength(w + "(" + NatToString(n) + ")") == n
  {
    GroupLengthAfter(w, NatToString(n));
    ParseNatToString(n);
  }

  /** The facts about the word "varchar" the round trips use. */
  lemma VarcharWord()
    ensures NoUpper("varchar") && !IsSpace("varchar"[0]) && '(' !in "varchar"
  {
  }

  /** "varchar(d)" for a run of digits `d` translates by the number `d` spells. */
  lemma VarcharDigits(d: string)
    requires d != [] && AllDigits(d) && ParseDigits(d) <= MaxInt
    ensures var n := ParseDigits(d);
      ToPgType("varchar(" + d + ")") == if n > MaxVarchar then "TEXT" else if n > 0 then Varchar(n) else "VARCHAR"
  {
    var s := "varchar" + "(" + d + ")";
    assert "varchar(" + d + ")" == s;
    VarcharWord();
    NormalOfLower("varchar", d);
    GroupLengthAfter("varchar", d);
    assert HasPrefix(s, "varchar");
    CharFamilyLength(s);
  }

  /**
   * "varchar(n)" reads back its own length: it translates to VARCHAR(n) for
   * every n from 1 to 255, to TEXT above, and to VARCHAR for 0.
   */
  lemma VarcharRoundTrip(n: nat)
    requires n <= MaxInt
    ensures ToPgType("varchar(" + NatToString(n) + ")") ==
      if n > MaxVarchar then "TEXT" else if n > 0 then Varchar(n) else "VARCHAR"
  {
    ParseNatToString(n);
    VarcharDigits(NatToString(n));
  }

  /** `w + "(" + d + ")"` for a word `w` without upper case or leading space and digits `d` is its own normal form. */
  lemma NormalOfLower(w: string, d: string)
    requires w != [] && NoUpper(w) && !IsSpace(w[0]) && AllDigits(d)
    ensures Normal(w + "(" + d + ")") == w + "(" + d + ")"
  {
    var s := w + "(" + d + ")";
    assert s[0] == w[0];
    assert TrimLeft(s) == s;
    assert TrimRight(s) == s;
    NoUpperAppend(w, "(");
    NoUpperAppend(w + "(", d);
    NoUpperAppend(w + "(" + d, ")");
    LowerNoUpper(s);
  }

  /** Feeding a result back in gives the same result: every translation is a fixed point. */
  lemma ToPgTypeIdempotent(sqlType: string)
    ensures ToPgType(ToPgType(sqlType)) == ToPgType(sqlType)
  {
    var r := ToPgType(sqlType);
    ToPgTypeRange(sqlType);
    if r == Upper(sqlType) {
      NormalUpper(sqlType);
      UpperUpper(sqlType);
    } else if IsFixedName(r) {
      FixedNameIsFixed(r);
    } else {
      var n :| 1 <= n <= MaxVarchar && r == Varchar(n);
      VarcharIsFixed(n);
    }
  }

  lemma VarcharIsFixed(n: nat)
    requires 0 < n <= MaxVarchar
    ensures ToPgType(Varchar(n)) == Varchar(n)
  {
    ParseNatToString(n);
    VarcharDigitsFixed(NatToString(n));
  }

  /** "VARCHAR(d)" normalises to "varchar(d)", which translates back to "VARCHAR(d)". */
  lemma VarcharDigitsFixed(d: string)
    requires d != [] && AllDigits(d) && 0 < ParseDigits(d) <= MaxVarchar
    ensures ToPgType("VARCHAR(" + d + ")") == Varchar(ParseDigits(d))
  {
    var s := "VARCHAR(" + d + ")";
    var low := "varchar" + "(" + d + ")";
    assert TrimSpace(s) == s by {
      assert s[0] == 'V' && s[|s| - 1] == ')';
      assert TrimLeft(s) == s;
    }
    assert Lower(s) == low by {
      LowerAppend("VARCHAR(", d);
      LowerAppend("VARCHAR(" + d, ")");
      LowerDigits(d);
      assert Lower("VARCHAR(") == "varchar(";
      assert Lower(")") == ")";
    }
    VarcharWord();
    GroupLengthAfter("varchar", d);
    assert HasPrefix(low, "varchar");
    TranslateCharFamily(low, ParseDigits(d), Upper(s));
  }

  /** An upper-case word without surrounding space normalises to its lower-case form. */
  lemma NormalOfWord(r: string)
    requires r != [] && forall i :: 0 <= i < |r| ==> IsUpper(r[i])
    ensures Normal(r) == Lower(r)
    ensures Upper(r) == r
  {
    assert TrimSpace(r) == r by {
      assert !IsSpace(r[0]) && !IsSpace(r[|r| - 1]);
      assert TrimLeft(r) == r;
    }
    UpperNoLower(r);
  }

  /** An upper-case word with lower-case form `t` translates as the case analysis on `t` says. */
  lemma WordLift(r: string, t: string)
    requires r != [] && (forall i :: 0 <= i < |r| ==> IsUpper(r[i])) && Lower(r) == t
    ensures ToPgType(r) == Translate(t, GroupLength(t), r)
  {
    NormalOfWord(r);
  }

  /** The lower-case forms of the integer and character fixed names fall into the case that gives back the name. */
  lemma TranslatesNumberName(t: string, n: nat, r: string)
    requires (t == "varchar" && n == 0 && r == "VARCHAR") || (t == "integer" && r == "INTEGER") ||
      (t == "smallint" && r == "SMALLINT") || (t == "bigint" && r == "BIGINT")
    ensures Translate(t, n, r) == r
  {
    if t == "varchar" {
      assert t[0] == 'v';
    } else if t == "integer" {
      assert t[0] == 'i' && t[3] == 'e';
    } else if t == "smallint" {
      assert t[0] == 's';
    } else {
      assert t[0] == 'b' && t[1] == 'i' && t[2] == 'g';
    }
  }

  /** The same for the boolean and timestamp fixed names. */
  lemma TranslatesFlagName(t: string, n: nat, r: string)
    requires (t == "boolean" && r == "BOOLEAN") || (t == "timestamp" && r == "TIMESTAMP")
    ensures Translate(t, n, r) == r
  {
    if t == "boolean" {
      assert t[0] == 'b' && t[1] == 'o';
    } else {
      assert t[0] == 't' && t[1] == 'i' && t[2] == 'm';
    }
  }

  /** The same for the date, uuid and text fixed names. */
  lemma TranslatesOtherName(t: string, n: nat, r: string)
    requires (t == "date" && r == "DATE") || (t == "uuid" && r == "UUID") || (t == "text" && r == "TEXT")
    ensures Translate(t, n, r) == r
  {
    if t == "date" {
      assert t[0] == 'd' && t[2] == 't' && t[3] == 'e';
    } else if t == "uuid" {
      assert t[0] == 'u' && t[1] == 'u';
    } else {
      assert t[0] == 't' && t[1] == 'e';
    }
  }

  lemma FixedNamesIsFixed1(r: string)
    requires r == "VARCHAR" || r == "INTEGER" || r == "SMALLINT"
    ensures ToPgType(r) == r
  {
    if r == "VARCHAR" {
      WordLift(r, "varchar");
      NoGroup("varchar");
      TranslatesNumberName("varchar", GroupLength("varchar"), r);
    } else if r == "INTEGER" {
      WordLift(r, "integer");
      TranslatesNumberName("integer", GroupLength("integer"), r);
    } else {
      WordLift(r, "smallint");
      TranslatesNumberName("smallint", GroupLength("smallint"), r);
    }
  }

  lemma FixedNamesIsFixed2(r: string)
    requires r == "BIGINT" || r == "BOOLEAN" || r == "TIMESTAMP"
    ensures ToPgType(r) == r
  {
    if r == "BIGINT" {
      WordLift(r, "bigint");
      TranslatesNumberName("bigint", GroupLength("bigint"), r);
    } else if r == "BOOLEAN" {
      WordLift(r, "boolean");
      TranslatesFlagName("boolean", GroupLength("boolean"), r);
    } else {
      WordLift(r, "timestamp");
      TranslatesFlagName("timestamp", GroupLength("timestamp"), r);
    }
  }

  lemma FixedNamesIsFixed3(r: string)
    requires r == "DATE" || r == "UUID" || r == "TEXT"
    ensures ToPgType(r) == r
  {
    if r == "DATE" {
      WordLift(r, "date");
      TranslatesOtherName("date", GroupLength("date"), r);
    } else if r == "UUID" {
      WordLift(r, "uuid");
      TranslatesOtherName("uuid", GroupLength("uuid"), r);
    } else {
      WordLift(r, "text");
      TranslatesOtherName("text", GroupLength("text"), r);
    }
  }

  /** The fixed type names translate to themselves. */
  lemma FixedNameIsFixed(r: string)
    requires IsFixedName(r)
    ensures ToPgType(r) == r
  {
    if r == "VARCHAR" || r == "INTEGER" || r == "SMALLINT" {
      FixedNamesIsFixed1(r);
    } else if r == "BIGINT" || r == "BOOLEAN" || r == "TIMESTAMP" {
      FixedNamesIsFixed2(r);
    } else {
      FixedNamesIsFixed3(r);
    }
  }
}
