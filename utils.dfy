/**
 * The string helpers of the extraction engine (data_processor/utils.py):
 * formatting a thickness or tolerance so a spreadsheet cannot read it as
 * a date, converting a length to millimetres, and splitting a
 * multi-specification cell into its specifications.
 */
module Utils {
  import opened Wrappers
  import opened Text
  import opened Numbers
  import opened Cells
  import opened Seqs

  // ---------------------------------------------------------------------
  // format_thickness

  /** The two dashes a thickness range may use: ASCII '-' and full-width '－'. */
  const RangeDashes: set<char> := {'-', '－'}

  /**
   * One piece of a thickness range: stripped, and written as a number
   * ("3" and "3.00" as "3.0", "2.50" as "2.5") when it reads as one;
   * otherwise the stripped text itself.
   */
  function FormattedPiece(part: string): (r: string)
    ensures Avoids(part, RangeDashes) ==> Avoids(r, RangeDashes)
  {
    var t := Strip(part);
    assert Avoids(part, RangeDashes) ==> Avoids(t, RangeDashes) by {
      if Avoids(part, RangeDashes) {
        StripAvoids(part, RangeDashes);
      }
    }
    match ParseFloat(t)
    case Some(v) =>
      assert Avoids(t, RangeDashes) ==> Avoids(NumberText(v), RangeDashes) by {
        if Avoids(t, RangeDashes) {
          NumeralAvoidsDashes(t, v);
        }
      }
      NumberText(v)
    case None => t
  }

  /** Text without a dash reads as a non-negative number, whose numeral has no dash either. */
  lemma NumeralAvoidsDashes(t: string, v: Dec)
    requires ParseFloat(t) == Some(v) && Avoids(t, RangeDashes)
    ensures Avoids(NumberText(v), RangeDashes)
  {
    assert '-' !in t by {
      forall k | 0 <= k < |t|
        ensures t[k] != '-'
      {
        assert t[k] !in RangeDashes;
      }
    }
    assert NumberText(v) == UnsignedText(v);
  }

  /** Every piece of `parts`, formatted. */
  function FormattedPieces(parts: seq<string>): (r: seq<string>)
    ensures |r| == |parts|
    ensures forall k | 0 <= k < |r| :: r[k] == FormattedPiece(parts[k])
  {
    Map(FormattedPiece, parts)
  }

  /** `format_thickness`: the formatted pieces of the range, joined again with '-'. */
  function FormattedThickness(s: string): (r: string)
    ensures s == "" ==> r == ""
  {
    if s == "" then ""
    else Join(FormattedPieces(Split(s, RangeDashes)), "-")
  }

  /** The body of the formatting loop: one piece, stripped and read as a number if it is one. */
  method FormatPiece(part: string) returns (piece: string)
    ensures piece == FormattedPiece(part)
  {
    var t := Strip(part);
    var value := ParseFloat(t);
    if value.Some? {
      piece := NumberText(value.value);
      PieceOfNumber(part, value.value);
    } else {
      piece := t;
      PieceOfText(part);
    }
  }

  /** Formatting one more piece appends its formatted text. */
  lemma FormattedPiecesSnoc(parts: seq<string>, i: nat)
    requires i < |parts|
    ensures FormattedPieces(parts[..i + 1]) == FormattedPieces(parts[..i]) + [FormattedPiece(parts[i])]
  {
    MapSnoc(FormattedPiece, parts, i);
  }

  /** The formatting loop of `format_thickness`, over the pieces of the range. */
  method FormatPieces(parts: seq<string>) returns (formatted: seq<string>)
    ensures formatted == FormattedPieces(parts)
  {
    formatted := [];
    for i := 0 to |parts|
      invariant formatted == FormattedPieces(parts[..i])
    {
      var piece := FormatPiece(parts[i]);
      FormattedPiecesSnoc(parts, i);
      formatted := formatted + [piece];
    }
    assert parts[..|parts|] == parts;
  }

  /** `format_thickness`: split at the dashes, format each piece, join with '-'. */
  method FormatThickness(s: string) returns (r: string)
    ensures r == FormattedThickness(s)
  {
    if s == "" {
      return "";
    }
    var formatted := FormatPieces(Split(s, RangeDashes));
    r := Join(formatted, "-");
  }

  /** A formatted range has exactly the pieces of the input, each one formatted. */
  lemma ThicknessPieces(s: string)
    requires s != ""
    ensures Split(FormattedThickness(s), RangeDashes) == FormattedPieces(Split(s, RangeDashes))
  {
    var parts := FormattedPieces(Split(s, RangeDashes));
    SplitJoin(parts, '-', RangeDashes);
  }

  /** A piece that reads as a number is formatted as that number's numeral. */
  lemma PieceOfNumber(part: string, v: Dec)
    requires ParseFloat(Strip(part)) == Some(v)
    ensures FormattedPiece(part) == NumberText(v)
  {
  }

  /** A piece that does not read as a number is only stripped. */
  lemma PieceOfText(part: string)
    requires ParseFloat(Strip(part)) == None
    ensures FormattedPiece(part) == Strip(part)
  {
  }

  /** A numeral reads back as its own number once formatted. */
  lemma NumeralPiece(v: Dec)
    requires Canonical(v)
    ensures FormattedPiece(NumberText(v)) == NumberText(v)
  {
    NumberTextStripped(v);
    ParseNumberText(v);
    PieceOfNumber(NumberText(v), v);
  }

  /** A piece that reads as a number is formatted once and for all. */
  lemma NumberPieceIdempotent(part: string, v: Dec)
    requires ParseFloat(Strip(part)) == Some(v)
    ensures FormattedPiece(FormattedPiece(part)) == FormattedPiece(part)
  {
    PieceOfNumber(part, v);
    NumeralPiece(v);
  }

  /** A piece that does not read as a number is formatted once and for all. */
  lemma TextPieceIdempotent(part: string)
    requires ParseFloat(Strip(part)) == None
    ensures FormattedPiece(FormattedPiece(part)) == FormattedPiece(part)
  {
    PieceOfText(part);
    StripIdempotent(part);
    PieceOfText(Strip(part));
  }

  /** Formatting a piece twice changes nothing more. */
  lemma FormattedPieceIdempotent(part: string)
    ensures FormattedPiece(FormattedPiece(part)) == FormattedPiece(part)
  {
    if ParseFloat(Strip(part)).Some? {
      NumberPieceIdempotent(part, ParseFloat(Strip(part)).value);
    } else {
      TextPieceIdempotent(part);
    }
  }

  /** A thickness text that formatting leaves as it is. */
  predicate Formatted(s: string) {
    FormattedThickness(s) == s
  }

  /** Formatting formatted pieces again changes none of them. */
  lemma PiecesIdempotent(parts: seq<string>)
    ensures FormattedPieces(FormattedPieces(parts)) == FormattedPieces(parts)
  {
    forall k | 0 <= k < |parts|
      ensures FormattedPieces(FormattedPieces(parts))[k] == FormattedPieces(parts)[k]
    {
      FormattedPieceIdempotent(parts[k]);
    }
  }

  /** Formatting an already formatted thickness gives it back unchanged. */
  lemma FormattedThicknessIdempotent(s: string)
    ensures FormattedThickness(FormattedThickness(s)) == FormattedThickness(s)
  {
    if s != "" && FormattedThickness(s) != "" {
      ThicknessPieces(s);
      PiecesIdempotent(Split(s, RangeDashes));
    }
  }

  /** A whole number of millimetres is written with ".0" so that "3" cannot become a date. */
  lemma IntegralThickness(n: nat)
    ensures FormattedThickness(NatText(n)) == NatText(n) + ".0"
  {
    var t := NatText(n);
    assert Split(t, RangeDashes) == [t] by {
      assert Join([t], "-") == t;
      SplitJoin([t], '-', RangeDashes);
    }
    assert FormattedPiece(t) == t + ".0" by {
      assert Strip(t) == t by {
        assert NoSpaces(t);
        StripNoSpaces(t);
      }
      NatParse(n);
    }
    var pieces := FormattedPieces([t]);
    assert |pieces| == 1 && pieces[0] == FormattedPiece(t);
    assert pieces == [t + ".0"];
  }

  // ---------------------------------------------------------------------
  // normalize_length

  datatype LengthUnit = Metres | Millimetres

  /** The characters of `[\d\.]`, ASCII digits only. */
  predicate IsNumeralChar(c: char) {
    IsDigit(c) || c == '.'
  }

  /** The length of the run of digits and dots at the start of `s`. */
  function NumeralRunLength(s: string): (n: nat)
    ensures n <= |s|
    ensures forall k | 0 <= k < n :: IsNumeralChar(s[k])
    ensures n < |s| ==> !IsNumeralChar(s[n])
  {
    if s != [] && IsNumeralChar(s[0]) then 1 + NumeralRunLength(s[1..]) else 0
  }

  /** `c.lower()` for the one letter the length pattern looks at. */
  function Lower(c: char): char {
    if c == 'M' then 'm' else c
  }

  /**
   * `re.match(r'([\d\.]+)\s*(米|m|mm|毫米)', s.lower())`: the numeral and the
   * unit it is read in. The alternatives are tried in order, so "mm" is
   * never the unit that matches: 'm' already has.
   */
  function LengthToken(s: string): (r: Option<(string, LengthUnit)>)
    ensures r.Some? ==> r.value.0 != [] && StartsWith(s, r.value.0)
    ensures r.Some? ==> forall k | 0 <= k < |r.value.0| :: IsNumeralChar(r.value.0[k])
  {
    var n := NumeralRunLength(s);
    var rest := LStrip(s[n..]);
    if n == 0 || rest == [] then None
    else if rest[0] == '米' || Lower(rest[0]) == 'm' then Some((s[..n], Metres))
    else if StartsWith(rest, "毫米") then Some((s[..n], Millimetres))
    else None
  }

  /**
   * `normalize_length`: a length in whole millimetres. A numeral with a
   * metre unit is multiplied by 1000, one with a millimetre unit is kept;
   * a bare number below 20 is taken as metres, any other as millimetres;
   * anything else is returned as it is. A unit after a numeral that
   * `float` rejects ("1.2.3米") raises, which is `Err(ValueError)` here.
   */
  function NormalizeLength(s: string): (r: Result<string>)
    ensures s == "" ==> r == Ok("")
    ensures r.Err? ==> LengthToken(s).Some? && ParseFloat(LengthToken(s).value.0).None?
  {
    if s == "" then Ok("")
    else match LengthToken(s)
      case Some((numeral, unit)) =>
        (match ParseFloat(numeral)
         case None => Err(ValueError)
         case Some(v) => Ok(IntText(Trunc(if unit == Metres then Times1000(v) else v))))
      case None =>
        (match ParseFloat(s)
         case None => Ok(s)
         case Some(v) => Ok(IntText(Trunc(if LessThan20(v) then Times1000(v) else v))))
  }

  /** "6000mm" is read as 6000 metres: the 'm' alternative matches before "mm" is tried. */
  lemma MillimetresReadAsMetres(numeral: string)
    requires numeral != [] && forall k | 0 <= k < |numeral| :: IsNumeralChar(numeral[k])
    ensures NormalizeLength(numeral + "mm") == NormalizeLength(numeral + "m")
    ensures LengthToken(numeral + "mm") == Some((numeral, Metres))
  {
    UnitAfterNumeral(numeral, "mm");
    UnitAfterNumeral(numeral, "m");
  }

  /** The numeral run of `numeral + rest` is `numeral` when `rest` starts with something else. */
  lemma {:induction false} NumeralRunPrefix(numeral: string, rest: string)
    requires forall k | 0 <= k < |numeral| :: IsNumeralChar(numeral[k])
    requires rest != [] && !IsNumeralChar(rest[0])
    ensures NumeralRunLength(numeral + rest) == |numeral|
    decreases |numeral|
  {
    if numeral != [] {
      assert (numeral + rest)[1..] == numeral[1..] + rest;
      NumeralRunPrefix(numeral[1..], rest);
    }
  }

  /** Where the numeral of a length token ends, its unit begins. */
  lemma UnitAfterNumeral(numeral: string, rest: string)
    requires forall k | 0 <= k < |numeral| :: IsNumeralChar(numeral[k])
    requires rest != [] && !IsNumeralChar(rest[0]) && !IsSpace(rest[0])
    ensures var n := NumeralRunLength(numeral + rest);
      n == |numeral| && (numeral + rest)[..n] == numeral && LStrip((numeral + rest)[n..]) == rest
  {
    NumeralRunPrefix(numeral, rest);
    assert (numeral + rest)[|numeral|..] == rest;
    assert (numeral + rest)[..|numeral|] == numeral;
  }

  /** With a length token whose numeral reads as a number, the length is that number in millimetres. */
  lemma NormalizeToken(s: string, numeral: string, unit: LengthUnit, v: Dec)
    requires s != "" && LengthToken(s) == Some((numeral, unit)) && ParseFloat(numeral) == Some(v)
    ensures NormalizeLength(s) == Ok(IntText(Trunc(if unit == Metres then Times1000(v) else v)))
  {
  }

  /** With a length token whose numeral does not read as a number, normalising raises. */
  lemma NormalizeBadToken(s: string, numeral: string, unit: LengthUnit)
    requires s != "" && LengthToken(s) == Some((numeral, unit)) && ParseFloat(numeral) == None
    ensures NormalizeLength(s) == Err(ValueError)
  {
  }

  /** The token of a text whose numeral run is followed by a metre unit. */
  lemma TokenInMetres(s: string, n: nat, rest: string)
    requires n == NumeralRunLength(s) && rest == LStrip(s[n..])
    requires n > 0 && rest != [] && (rest[0] == '米' || Lower(rest[0]) == 'm')
    ensures LengthToken(s) == Some((s[..n], Metres))
  {
  }

  /** A numeral followed by a one-letter metre unit is a length token in metres. */
  lemma MetreCharToken(numeral: string, c: char)
    requires numeral != [] && forall k | 0 <= k < |numeral| :: IsNumeralChar(numeral[k])
    requires c == '米' || c == 'm' || c == 'M'
    ensures LengthToken(numeral + [c]) == Some((numeral, Metres))
  {
    assert !IsNumeralChar(c) && !IsSpace(c);
    UnitAfterNumeral(numeral, [c]);
    TokenInMetres(numeral + [c], |numeral|, [c]);
  }

  /** A numeral followed by a metre unit is a length token in metres. */
  lemma MetreToken(numeral: string, unit: string)
    requires numeral != [] && forall k | 0 <= k < |numeral| :: IsNumeralChar(numeral[k])
    requires unit == "米" || unit == "m" || unit == "M"
    ensures LengthToken(numeral + unit) == Some((numeral, Metres))
  {
    assert |unit| == 1;
    var c := unit[0];
    assert c == '米' || c == 'm' || c == 'M';
    assert unit == [c];
    MetreCharToken(numeral, c);
  }

  /** A whole number of metres is 1000 times as many millimetres. */
  lemma WholeMetres(n: nat)
    ensures Trunc(Times1000(Dec(false, n, 0))) == 1000 * n
  {
  }

  /** A length written in metres ("6米", "6m") comes out as 1000 times the number. */
  lemma MetresToMillimetres(n: nat, unit: string)
    requires unit == "米" || unit == "m" || unit == "M"
    ensures NormalizeLength(NatText(n) + unit) == Ok(IntText(1000 * n))
  {
    var t := NatText(n);
    MetreToken(t, unit);
    NatParse(n);
    NormalizeToken(t + unit, t, Metres, Dec(false, n, 0));
    WholeMetres(n);
  }

  /** A bare whole number below 20 is taken as metres, any other as millimetres. */
  lemma BareLength(n: nat)
    ensures NormalizeLength(NatText(n)) == Ok(IntText(if n < 20 then 1000 * n else n))
  {
    var t := NatText(n);
    assert LengthToken(t) == None by {
      AllNumeral(t);
      assert t[|t|..] == [];
    }
    assert ParseFloat(t) == Some(Dec(false, n, 0)) by {
      NatParse(n);
    }
    assert Trunc(Times1000(Dec(false, n, 0))) == 1000 * n;
    assert Trunc(Dec(false, n, 0)) == n;
  }

  /** A run of digits and dots is its own numeral run. */
  lemma {:induction false} AllNumeral(t: string)
    requires forall k | 0 <= k < |t| :: IsNumeralChar(t[k])
    ensures NumeralRunLength(t) == |t|
    decreases |t|
  {
    if t != [] {
      AllNumeral(t[1..]);
    }
  }

  /** A unit after a numeral with two dots ("1.2.3米") raises instead of passing the text through. */
  lemma MalformedLength(a: string, b: string, c: string, unit: string)
    requires AllDigits(a) && AllDigits(b) && AllDigits(c)
    requires unit == "米" || unit == "m" || unit == "毫米"
    ensures NormalizeLength(a + "." + b + "." + c + unit) == Err(ValueError)
  {
    var numeral := a + "." + b + "." + c;
    var u := if unit == "毫米" then Millimetres else Metres;
    assert forall k | 0 <= k < |numeral| :: IsNumeralChar(numeral[k]);
    assert LengthToken(numeral + unit) == Some((numeral, u)) by {
      UnitAfterNumeral(numeral, unit);
    }
    TwoDotsRejected(a, b, c);
    NormalizeBadToken(numeral + unit, numeral, u);
  }

  /** `float` rejects a numeral with two dots. */
  lemma TwoDotsRejected(a: string, b: string, c: string)
    requires AllDigits(a) && AllDigits(b) && AllDigits(c)
    ensures ParseFloat(a + "." + b + "." + c) == None
  {
    var numeral := a + "." + b + "." + c;
    assert ParseUnsigned(numeral) == None by {
      ThreeParts(a, b, c);
    }
    assert ParseSigned(numeral) == ParseUnsigned(numeral) by {
      assert IsDigit(numeral[0]) || numeral[0] == '.';
    }
    assert Strip(numeral) == numeral by {
      assert NoSpaces(numeral);
      StripNoSpaces(numeral);
    }
  }

  lemma ThreeParts(a: string, b: string, c: string)
    requires AllDigits(a) && AllDigits(b) && AllDigits(c)
    ensures Split(a + "." + b + "." + c, {'.'}) == [a, b, c]
  {
    var parts := [a, b, c];
    assert a + "." + b + "." + c == Join(parts, ".") by {
      assert parts[1..] == [b, c] && [b, c][1..] == [c];
      assert Join([b, c], ".") == b + "." + c;
    }
    assert Avoids(a, {'.'}) && Avoids(b, {'.'}) && Avoids(c, {'.'});
    SplitJoin(parts, '.', {'.'});
  }

  // ---------------------------------------------------------------------
  // parse_spec_cell

  /** The separator characters of `[\n,，\s]`. */
  predicate IsSpecSeparator(c: char) {
    c == ',' || c == '，' || IsSpace(c)
  }

  /** The length of the run of separator characters at the start of `s`. */
  function SeparatorRunLength(s: string): (n: nat)
    ensures n <= |s|
    ensures s != [] && IsSpecSeparator(s[0]) ==> n >= 1
  {
    if s != [] && IsSpecSeparator(s[0]) then 1 + SeparatorRunLength(s[1..]) else 0
  }

  /** `s` is a run of whitespace, possibly empty, then a '*'. */
  predicate StarAhead(s: string)
    decreases |s|
  {
    s != [] && (s[0] == '*' || (IsSpace(s[0]) && StarAhead(s[1..])))
  }

  /**
   * `re.sub(r'\s*\*\s*', '*', s)`: whitespace around each '*' removed. A
   * whitespace character is dropped when the run it belongs to reaches a
   * '*', and the whitespace after a '*' is skipped.
   */
  function TightenStars(s: string): (r: string)
    decreases |s|
  {
    if s == [] then []
    else if s[0] == '*' then "*" + TightenStars(LStrip(s[1..]))
    else if IsSpace(s[0]) && StarAhead(s) then TightenStars(s[1..])
    else [s[0]] + TightenStars(s[1..])
  }

  /** A character that is neither whitespace nor '*' is copied. */
  lemma TightenPlain(s: string)
    requires s != [] && !IsSpace(s[0]) && s[0] != '*'
    ensures TightenStars(s) == [s[0]] + TightenStars(s[1..])
  {
  }

  /** A '*' not followed by whitespace is copied. */
  lemma TightenStar(s: string)
    requires s != [] && s[0] == '*' && (|s| == 1 || !IsSpace(s[1]))
    ensures TightenStars(s) == "*" + TightenStars(s[1..])
  {
    assert LStrip(s[1..]) == s[1..];
  }

  /** A word with no whitespace that does not end in '*' passes through unchanged, whatever follows it. */
  lemma {:induction false} TightenWord(x: string, t: string)
    requires NoSpaces(x) && (x == [] || x[|x| - 1] != '*')
    ensures TightenStars(x + t) == x + TightenStars(t)
    decreases |x|
  {
    if x != [] {
      assert (x + t)[1..] == x[1..] + t;
      if x[0] == '*' {
        assert |x| > 1;
        TightenStar(x + t);
      } else {
        TightenPlain(x + t);
      }
      TightenWord(x[1..], t);
      assert TightenStars(x + t) == [x[0]] + (x[1..] + TightenStars(t));
      assert [x[0]] + x[1..] == x;
    } else {
      assert x + t == t;
    }
  }

  /** A run with no '*' followed by neither whitespace nor '*' does not lead to a '*'. */
  lemma {:induction false} NoStarAhead(w: string, t: string)
    requires forall i | 0 <= i < |w| :: w[i] != '*'
    requires t == [] || (!IsSpace(t[0]) && t[0] != '*')
    ensures !StarAhead(w + t)
    decreases |w|
  {
    if w == [] {
      assert w + t == t;
    } else {
      assert (w + t)[1..] == w[1..] + t;
      NoStarAhead(w[1..], t);
    }
  }

  /** A run with no '*' passes through unchanged when what follows starts with neither whitespace nor '*'. */
  lemma {:induction false} TightenGap(w: string, t: string)
    requires forall i | 0 <= i < |w| :: w[i] != '*'
    requires t == [] || (!IsSpace(t[0]) && t[0] != '*')
    ensures TightenStars(w + t) == w + TightenStars(t)
    decreases |w|
  {
    if w == [] {
      assert w + t == t;
    } else {
      NoStarAhead(w, t);
      assert (w + t)[1..] == w[1..] + t;
      TightenGap(w[1..], t);
      assert TightenStars(w + t) == [w[0]] + (w[1..] + TightenStars(t));
      assert [w[0]] + w[1..] == w;
    }
  }

  /** Whitespace on both sides of a '*' is removed: "30 * 30" becomes "30*30". */
  lemma {:induction false} TightenAroundStar(a: string, b: string)
    requires NoSpaces(a) && NoSpaces(b) && '*' !in a && '*' !in b
    ensures TightenStars(a + " * " + b) == a + "*" + b
    decreases |a|
  {
    var s := a + " * " + b;
    if a == [] {
      assert s == " * " + b && s[1..] == "* " + b;
      assert StarAhead(s);
      assert ("* " + b)[1..] == " " + b;
      assert LStrip(" " + b) == b by {
        assert (" " + b)[1..] == b;
        assert b == [] || !IsSpace(b[0]);
      }
      TightenWord(b, []);
      assert b + [] == b;
    } else {
      TightenPlain(s);
      assert s[1..] == a[1..] + " * " + b;
      TightenAroundStar(a[1..], b);
      assert a + "*" + b == [a[0]] + (a[1..] + "*" + b);
    }
  }

  /**
   * `re.split(r'<br>|[\n,，\s]+', s)`: the text between separators, where a
   * separator is a "<br>" tag or a maximal run of commas and whitespace.
   */
  function SpecPieces(s: string): (parts: seq<string>)
    ensures |parts| >= 1
    ensures forall k | 0 <= k < |parts| :: forall i | 0 <= i < |parts[k]| :: !IsSpecSeparator(parts[k][i])
    decreases |s|
  {
    if s == [] then [""]
    else if StartsWith(s, "<br>") then [""] + SpecPieces(s[4..])
    else if IsSpecSeparator(s[0]) then [""] + SpecPieces(s[SeparatorRunLength(s)..])
    else
      var rest := SpecPieces(s[1..]);
      [[s[0]] + rest[0]] + rest[1..]
  }

  /** No piece of a split contains a "<br>" tag. */
  lemma {:induction false} SpecPiecesNoBreak(s: string)
    ensures forall k | 0 <= k < |SpecPieces(s)| :: !Contains(SpecPieces(s)[k], "<br>")
    ensures StartsWith(s, SpecPieces(s)[0])
    decreases |s|
  {
    if s == [] {
    } else if StartsWith(s, "<br>") {
      SpecPiecesNoBreak(s[4..]);
    } else if IsSpecSeparator(s[0]) {
      SpecPiecesNoBreak(s[SeparatorRunLength(s)..]);
    } else {
      var rest := SpecPieces(s[1..]);
      SpecPiecesNoBreak(s[1..]);
      var first := [s[0]] + rest[0];
      assert first[1..] == rest[0];
      assert first == s[..|first|];
      assert !StartsWith(first, "<br>");
      var parts := SpecPieces(s);
      forall k | 0 <= k < |parts| ensures !Contains(parts[k], "<br>") {
        if k > 0 {
          assert parts[k] == rest[k];
        }
      }
    }
  }

  /** A piece as it can stand between separators: non-empty, no separator character, no "<br>" tag. */
  predicate Piece(p: string) {
    p != [] && !Contains(p, "<br>") && forall i | 0 <= i < |p| :: !IsSpecSeparator(p[i])
  }

  /** A run of separator characters, one or more. */
  predicate SeparatorRun(sep: string) {
    sep != [] && forall i | 0 <= i < |sep| :: IsSpecSeparator(sep[i])
  }

  /** The separator run at the start of `sep + u` is `sep` when `u` does not continue it. */
  lemma {:induction false} SeparatorRunOf(sep: string, u: string)
    requires forall i | 0 <= i < |sep| :: IsSpecSeparator(sep[i])
    requires u == [] || !IsSpecSeparator(u[0])
    ensures SeparatorRunLength(sep + u) == |sep|
    decreases |sep|
  {
    if sep != [] {
      assert (sep + u)[1..] == sep[1..] + u;
      SeparatorRunOf(sep[1..], u);
    }
  }

  /** A separator run splits off an empty piece before what follows. */
  lemma SpecPiecesAfterSeparator(sep: string, u: string)
    requires SeparatorRun(sep)
    requires u == [] || !IsSpecSeparator(u[0])
    ensures SpecPieces(sep + u) == [""] + SpecPieces(u)
  {
    SeparatorRunOf(sep, u);
    assert (sep + u)[|sep|..] == u;
    assert !StartsWith(sep + u, "<br>") by {
      assert (sep + u)[0] == sep[0] && IsSpecSeparator(sep[0]);
    }
  }

  /** A piece followed by nothing or by a separator is the first piece of the split. */
  lemma {:induction false} SpecPiecesAfterPiece(p: string, t: string)
    requires Piece(p)
    requires t == [] || IsSpecSeparator(t[0])
    ensures SpecPieces(p + t) == [p] + SpecPieces(t)[1..]
    decreases |p|
  {
    var s := p + t;
    assert !StartsWith(s, "<br>") by {
      if |p| >= 4 {
        assert s[..4] == p[..4];
        assert !StartsWith(p, "<br>");
      } else if |s| >= 4 {
        assert s[..4][|p|] == t[0] && !IsSpecSeparator("<br>"[|p|]);
      }
    }
    assert s[0] == p[0] && !IsSpecSeparator(s[0]);
    assert s[1..] == p[1..] + t;
    if |p| == 1 {
      assert SpecPieces(t)[0] == "" by {
        if t != [] {
          assert !StartsWith(t, "<br>");
        }
      }
      assert [p[0]] + "" == p;
    } else {
      assert !Contains(p[1..], "<br>");
      SpecPiecesAfterPiece(p[1..], t);
      assert [p[0]] + p[1..] == p;
    }
  }

  /** Parts written one after another, with `seps[k]` between part `k` and part `k + 1`. */
  function JoinBy(ps: seq<string>, seps: seq<string>): string
    requires |ps| >= 1 && |seps| == |ps| - 1
  {
    if |ps| == 1 then ps[0] else ps[0] + seps[0] + JoinBy(ps[1..], seps[1..])
  }

  /** Every gap of a joined text is a separator run, each gap its own. */
  predicate SeparatorRuns(seps: seq<string>) {
    forall k | 0 <= k < |seps| :: SeparatorRun(seps[k])
  }

  /** A joined text starts with the first character of its first part. */
  lemma JoinStart(ps: seq<string>, seps: seq<string>)
    requires |ps| >= 1 && |seps| == |ps| - 1 && ps[0] != []
    ensures JoinBy(ps, seps) != [] && JoinBy(ps, seps)[0] == ps[0][0]
  {
  }

  /** Splitting undoes joining pieces with separator runs, which may differ gap by gap: the pieces come back, in order. */
  lemma {:induction false} SpecPiecesJoin(ps: seq<string>, seps: seq<string>)
    requires |ps| >= 1 && |seps| == |ps| - 1 && forall k | 0 <= k < |ps| :: Piece(ps[k])
    requires SeparatorRuns(seps)
    ensures SpecPieces(JoinBy(ps, seps)) == ps
    decreases |ps|
  {
    if |ps| == 1 {
      SpecPiecesAfterPiece(ps[0], []);
      assert ps[0] + [] == ps[0];
    } else {
      var rest := JoinBy(ps[1..], seps[1..]);
      assert Piece(ps[1]) && SeparatorRun(seps[0]);
      JoinStart(ps[1..], seps[1..]);
      SpecPiecesJoin(ps[1..], seps[1..]);
      SpecPiecesAfterSeparator(seps[0], rest);
      assert ps[0] + seps[0] + rest == ps[0] + (seps[0] + rest);
      SpecPiecesAfterPiece(ps[0], seps[0] + rest);
      assert [ps[0]] + ps[1..] == ps;
    }
  }

  /**
   * The specifications kept from the pieces: each piece stripped, empty
   * ones dropped, and only the first occurrence of each kept.
   */
  function KeptPieces(parts: seq<string>): (r: seq<string>)
    ensures forall k | 0 <= k < |r| :: r[k] != ""
  {
    if parts == [] then []
    else
      var s := Strip(parts[|parts| - 1]);
      KeptPieces(parts[..|parts| - 1]) + (if s != "" then [s] else [])
  }

  /** `parse_spec_cell`: the distinct specifications written in one cell, in order. */
  function SpecValues(c: Cell): seq<string> {
    if c == Empty then []
    else Distinct(KeptPieces(SpecPieces(TightenStars(Render(c)))))
  }

  /** One more piece either adds its stripped text at the end or, when empty or already seen, nothing. */
  lemma KeptStep(parts: seq<string>, i: nat)
    requires i < |parts|
    ensures var s, before := Strip(parts[i]), Distinct(KeptPieces(parts[..i]));
      Distinct(KeptPieces(parts[..i + 1])) == if s != "" && s !in before then before + [s] else before
  {
    var s := Strip(parts[i]);
    assert parts[..i + 1][..i] == parts[..i];
    if s != "" {
      DistinctSnoc(KeptPieces(parts[..i]), s);
    } else {
      assert KeptPieces(parts[..i]) + [] == KeptPieces(parts[..i]);
    }
  }

  /** `parse_spec_cell`, with its de-duplication loop keeping `seen` as a set. */
  method ParseSpecCell(c: Cell) returns (specs: seq<string>)
    ensures specs == SpecValues(c)
  {
    if c == Empty {
      return [];
    }
    var parts := SpecPieces(TightenStars(Render(c)));
    specs := UniqueStripped(parts);
  }

  /** The loop of `parse_spec_cell`: strip each piece, keep the non-empty ones not seen before. */
  method UniqueStripped(parts: seq<string>) returns (specs: seq<string>)
    ensures specs == Distinct(KeptPieces(parts))
  {
    specs := [];
    var seen: set<string> := {};
    for i := 0 to |parts|
      invariant specs == Distinct(KeptPieces(parts[..i]))
      invariant forall x :: x in seen <==> x in specs
    {
      var s := Strip(parts[i]);
      KeptStep(parts, i);
      if s != "" && s !in seen {
        specs := specs + [s];
        seen := seen + {s};
      }
    }
    assert parts[..|parts|] == parts;
  }

  /** A specification as `parse_spec_cell` yields it: non-empty, with no separator, whitespace or tag. */
  predicate CleanSpec(s: string) {
    s != "" && !Contains(s, "<br>") && forall i | 0 <= i < |s| :: !IsSpecSeparator(s[i])
  }

  /** Every specification from a cell is clean. */
  lemma SpecValuesClean(c: Cell)
    ensures forall k | 0 <= k < |SpecValues(c)| :: CleanSpec(SpecValues(c)[k])
  {
    if c != Empty {
      var parts := SpecPieces(TightenStars(Render(c)));
      SpecPiecesNoBreak(TightenStars(Render(c)));
      KeptPiecesArePieces(parts);
    }
  }

  /** What is kept is exactly the non-empty pieces, which need no stripping. */
  lemma {:induction false} KeptPiecesArePieces(parts: seq<string>)
    requires forall k | 0 <= k < |parts| :: forall i | 0 <= i < |parts[k]| :: !IsSpecSeparator(parts[k][i])
    ensures forall k | 0 <= k < |KeptPieces(parts)| :: KeptPieces(parts)[k] in parts
    ensures forall k | 0 <= k < |parts| :: parts[k] != "" ==> parts[k] in KeptPieces(parts)
  {
    if parts != [] {
      var init := parts[..|parts| - 1];
      var last := parts[|parts| - 1];
      KeptPiecesArePieces(init);
      assert NoSpaces(last);
      StripNoSpaces(last);
      assert parts == init + [last];
    }
  }

  /** Specifications joined by separator runs, which may differ gap by gap, have no whitespace next to a '*' to remove. */
  lemma {:induction false} TightenJoin(ps: seq<string>, seps: seq<string>)
    requires |ps| >= 1 && |seps| == |ps| - 1
    requires forall k | 0 <= k < |ps| :: Listed(ps[k])
    requires SeparatorRuns(seps)
    ensures TightenStars(JoinBy(ps, seps)) == JoinBy(ps, seps)
    decreases |ps|
  {
    assert NoSpaces(ps[0]);
    if |ps| == 1 {
      TightenWord(ps[0], []);
      assert ps[0] + [] == ps[0];
    } else {
      var rest := JoinBy(ps[1..], seps[1..]);
      assert Listed(ps[1]) && SeparatorRun(seps[0]);
      JoinStart(ps[1..], seps[1..]);
      TightenJoin(ps[1..], seps[1..]);
      TightenGap(seps[0], rest);
      TightenWord(ps[0], seps[0] + rest);
      assert ps[0] + seps[0] + rest == ps[0] + (seps[0] + rest);
    }
  }

  /** Pieces without whitespace are kept as they are. */
  lemma {:induction false} KeptPiecesOfPieces(ps: seq<string>)
    requires forall k | 0 <= k < |ps| :: ps[k] != [] && NoSpaces(ps[k])
    ensures KeptPieces(ps) == ps
    decreases |ps|
  {
    if ps != [] {
      KeptLast(ps);
      KeptPiecesOfPieces(ps[..|ps| - 1]);
      FrontLast(ps);
    }
  }

  /** A last piece that is non-empty and has no whitespace is kept as it is. */
  lemma KeptLast(ps: seq<string>)
    requires ps != [] && ps[|ps| - 1] != [] && NoSpaces(ps[|ps| - 1])
    ensures KeptPieces(ps) == KeptPieces(ps[..|ps| - 1]) + [ps[|ps| - 1]]
  {
    StripNoSpaces(ps[|ps| - 1]);
  }

  /**
   * A cell listing distinct specifications, each gap a run of commas,
   * spaces or line breaks of its own, yields exactly those
   * specifications, in order.
   */
  lemma SpecValuesOfJoin(ps: seq<string>, seps: seq<string>)
    requires |ps| >= 1 && |seps| == |ps| - 1
    requires forall k | 0 <= k < |ps| :: Listed(ps[k])
    requires forall i, j | 0 <= i < j < |ps| :: ps[i] != ps[j]
    requires SeparatorRuns(seps)
    ensures SpecValues(Text(JoinBy(ps, seps))) == ps
  {
    TightenJoin(ps, seps);
    SpecPiecesJoin(ps, seps);
    assert forall k | 0 <= k < |ps| :: ps[k] != [] && NoSpaces(ps[k]);
    KeptPiecesOfPieces(ps);
    DistinctOfDistinct(ps);
  }

  /** A single specification written with spaces around its '*' comes out without them. */
  lemma SpecValuesSpacedStar(a: string, b: string)
    requires Piece(a + "*" + b) && '*' !in a && '*' !in b
    ensures SpecValues(Text(a + " * " + b)) == [a + "*" + b]
  {
    var x := a + "*" + b;
    assert NoSpaces(a) by {
      forall i | 0 <= i < |a| ensures !IsSpace(a[i]) {
        assert x[i] == a[i];
      }
    }
    assert NoSpaces(b) by {
      forall i | 0 <= i < |b| ensures !IsSpace(b[i]) {
        assert x[|a| + 1 + i] == b[i];
      }
    }
    TightenAroundStar(a, b);
    SpecPiecesJoin([x], []);
    KeptPiecesOfPieces([x]);
    DistinctOfDistinct([x]);
  }

  /** Text without a '<' holds no "<br>" tag. */
  lemma {:induction false} NoTagWithoutAngle(s: string)
    requires forall i | 0 <= i < |s| :: s[i] != '<'
    ensures !Contains(s, "<br>")
    decreases |s|
  {
    if s != [] {
      assert !StartsWith(s, "<br>") by {
        if |s| >= 4 {
          assert s[..4][0] == s[0];
        }
      }
      NoTagWithoutAngle(s[1..]);
    }
  }

  /** A specification as it can be written between separators: a piece that neither starts nor ends with '*'. */
  predicate Listed(p: string) {
    Piece(p) && p[0] != '*' && p[|p| - 1] != '*'
  }

  /**
   * A cell listing three distinct specifications, the first two separated
   * by ", " and the last two by a line break, as in "30*30, 40*40\n50*50",
   * gives those three specifications, in order.
   */
  lemma SpecValuesMixedSeparators(a: string, b: string, c: string)
    requires Listed(a) && Listed(b) && Listed(c)
    requires a != b && a != c && b != c
    ensures SpecValues(Text(a + ", " + b + "\n" + c)) == [a, b, c]
  {
    assert SeparatorRuns([", ", "\n"]) by {
      assert IsSpecSeparator(',') && IsSpecSeparator(' ') && IsSpecSeparator('\n');
    }
    assert JoinBy([a, b, c], [", ", "\n"]) == a + ", " + b + "\n" + c by {
      assert [a, b, c][1..] == [b, c] && [b, c][1..] == [c];
      assert [", ", "\n"][1..] == ["\n"] && ["\n"][1..] == [];
      assert JoinBy([b, c], ["\n"]) == b + "\n" + c;
      assert JoinBy([a, b, c], [", ", "\n"]) == a + ", " + (b + "\n" + c);
    }
    SpecValuesOfJoin([a, b, c], [", ", "\n"]);
  }

  /** "30*30", "40*40" and "50*50" are such specifications. */
  lemma SampleSpecsListed()
    ensures Listed("30*30") && Listed("40*40") && Listed("50*50")
  {
    DigitStarPiece("30*30");
    DigitStarPiece("40*40");
    DigitStarPiece("50*50");
  }

  /** Digits and '*' make a piece. */
  lemma DigitStarPiece(p: string)
    requires p != [] && forall i | 0 <= i < |p| :: '0' <= p[i] <= '9' || p[i] == '*'
    ensures Piece(p)
  {
    NoTagWithoutAngle(p);
  }
}
