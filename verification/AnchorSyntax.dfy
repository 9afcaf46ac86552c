/** Anchor references as text: "120#a3fk", "120-180#a3fk" and the bare "a3fk", and plain line ranges. */
module AnchorSyntax {
  import opened Wrappers
  import opened Text
  import opened AnchorHash

  /** The largest int of a 64-bit build; strconv.Atoi fails past it. */
  const MAX_INT := 0x7FFF_FFFF_FFFF_FFFF

  /** Line 0 marks a bare anchor, end 0 a single line. */
  datatype Ref = Ref(line: nat, end: nat, hash: string)

  datatype Fault = LineOutOfRange | LineZero | EndOutOfRange | Reversed | BadHash

  datatype Parsed = Other | Anchored(ref: Ref) | Malformed(fault: Fault)

  /** \d+(?:-\d+)? */
  predicate IsSpan(s: string) {
    var i := IndexOf(s, '-');
    if i == |s| then Digits(s) else Digits(s[..i]) && Digits(s[i + 1..])
  }

  /** The anchor grammar: a hash, after a line span and '#' unless it is bare. */
  predicate IsAnchor(s: string) {
    var i := IndexOf(s, '#');
    if i == |s| then IsHash(s) else IsSpan(s[..i]) && IsHash(s[i + 1..])
  }

  /** ^\d[\d-]*#: meant as an anchor. */
  predicate IsAnchorish(s: string) {
    var i := IndexOf(s, '#');
    0 < i < |s| && Digit(s[0]) && forall c :: c in s[..i] ==> Digit(c) || c == '-'
  }

  function ParseSpan(span: string, hash: string): Parsed
    requires IsSpan(span)
  {
    var j := IndexOf(span, '-');
    var line := Value(span[..j]);
    if line > MAX_INT then Malformed(LineOutOfRange)
    else if line == 0 then Malformed(LineZero)
    else if j == |span| then Anchored(Ref(line, 0, hash))
    else
      var end := Value(span[j + 1..]);
      if end > MAX_INT then Malformed(EndOutOfRange)
      else if end < line then Malformed(Reversed)
      else Anchored(Ref(line, end, hash))
  }

  /** Parse. */
  function Parse(section: string): Parsed {
    var i := IndexOf(section, '#');
    if IsSpan(section) then Other
    else if IsAnchor(section) then
      if i == |section| then Anchored(Ref(0, 0, section)) else ParseSpan(section[..i], section[i + 1..])
    else if IsAnchorish(section) then Malformed(BadHash)
    else Other
  }

  /** Format and FormatRange, and the hash alone. */
  function Format(line: nat, hash: string): string { Itoa(line) + "#" + hash }

  function FormatRange(start: nat, end: nat, hash: string): string { Itoa(start) + "-" + Itoa(end) + "#" + hash }

  function Render(ref: Ref): string {
    if ref.line == 0 then ref.hash
    else if ref.end == 0 then Format(ref.line, ref.hash)
    else FormatRange(ref.line, ref.end, ref.hash)
  }

  /** References that name 1-based lines of a 64-bit int, in order. */
  predicate IsRef(ref: Ref) {
    && IsHash(ref.hash) && ref.line <= MAX_INT && ref.end <= MAX_INT
    && (ref.line == 0 ==> ref.end == 0)
    && (ref.end > 0 ==> ref.line <= ref.end)
  }

  // ---------------------------------------------------------------------------
  // Round trips
  // ---------------------------------------------------------------------------

  lemma DigitsHold(s: string, c: char)
    requires Digits(s) && !Digit(c)
    ensures c !in s
  {
  }

  lemma SymbolsHold(h: string, c: char)
    requires IsHash(h) && !IsSymbol(c)
    ensures c !in h
  {
    assert h == [h[0], h[1], h[2], h[3]];
  }

  /** A line span is digits and dashes, and starts with a digit. */
  lemma SpanHolds(s: string)
    requires IsSpan(s)
    ensures s != "" && Digit(s[0]) && forall k :: 0 <= k < |s| ==> Digit(s[k]) || s[k] == '-'
  {
  }

  /** No hash and no anchor is a line number or a line range. */
  lemma AnchorIsNotNumeric(s: string)
    requires IsAnchor(s)
    ensures !IsSpan(s)
  {
    if IsSpan(s) {
      SpanHolds(s);
    }
  }

  lemma OneNumber(n: nat)
    ensures IndexOf(Itoa(n), '-') == |Itoa(n)| && IsSpan(Itoa(n)) && Itoa(n)[..|Itoa(n)|] == Itoa(n)
    ensures '#' !in Itoa(n) && ',' !in Itoa(n)
  {
    DigitsHold(Itoa(n), '-');
    IndexNone(Itoa(n), '-');
  }

  lemma TwoNumbers(start: nat, end: nat)
    ensures var s := Itoa(start) + "-" + Itoa(end);
      && IndexOf(s, '-') == |Itoa(start)| && IsSpan(s)
      && s[..|Itoa(start)|] == Itoa(start) && s[|Itoa(start)| + 1..] == Itoa(end)
      && '#' !in s && ',' !in s
  {
    OneNumber(start);
    OneNumber(end);
    DigitsHold(Itoa(start), '-');
    IndexPast(Itoa(start), '-', Itoa(end));
  }

  lemma SpanThenHash(span: string, hash: string)
    requires IsSpan(span) && '#' !in span && IsHash(hash)
    ensures Parse(span + "#" + hash) == ParseSpan(span, hash)
  {
    IndexPast(span, '#', hash);
    AnchorIsNotNumeric(span + "#" + hash);
  }

  /** Parse undoes Format, FormatRange and a bare hash on every reference. */
  lemma ParseUndoesRender(ref: Ref)
    requires IsRef(ref)
    ensures Parse(Render(ref)) == Anchored(ref)
  {
    ValueOfItoa(ref.line);
    ValueOfItoa(ref.end);
    if ref.line == 0 {
      SymbolsHold(ref.hash, '#');
      IndexNone(ref.hash, '#');
      AnchorIsNotNumeric(ref.hash);
    } else if ref.end == 0 {
      OneNumber(ref.line);
      SpanThenHash(Itoa(ref.line), ref.hash);
    } else {
      TwoNumbers(ref.line, ref.end);
      SpanThenHash(Itoa(ref.line) + "-" + Itoa(ref.end), ref.hash);
    }
  }

  /** Parse answers nothing but such references, so its answers are exactly what the rendered forms say. */
  lemma ParseAnswersReferences(section: string)
    ensures Parse(section).Anchored? ==> IsAnchor(section) && IsRef(Parse(section).ref)
    ensures Parse(section) == Malformed(BadHash) <==> IsAnchorish(section) && !IsAnchor(section)
  {
    if IsAnchorish(section) {
      AnchorishIsNotNumeric(section);
    }
  }

  lemma AnchorishIsNotNumeric(s: string)
    requires IsAnchorish(s)
    ensures !IsSpan(s)
  {
    if IsSpan(s) {
      SpanHolds(s);
    }
  }

  /** A section is digits, or two runs of digits around a dash. */
  ghost predicate SpanOf(section: string, a: string, b: Option<string>) {
    && Digits(a) && (b.Some? ==> Digits(b.value))
    && section == a + (if b.Some? then "-" + b.value else "")
  }

  lemma SpanIs(section: string)
    ensures IsSpan(section) <==> exists a, b :: SpanOf(section, a, b)
  {
    var i := IndexOf(section, '-');
    if IsSpan(section) {
      if i == |section| {
        assert SpanOf(section, section, None);
      } else {
        assert section == section[..i] + "-" + section[i + 1..];
        assert SpanOf(section, section[..i], Some(section[i + 1..]));
      }
    }
    if a, b :| SpanOf(section, a, b) {
      SpanParts(section, a, b);
    }
  }

  lemma SpanParts(section: string, a: string, b: Option<string>)
    requires SpanOf(section, a, b)
    ensures IsSpan(section) && '#' !in section
    ensures section[..IndexOf(section, '-')] == a
    ensures IndexOf(section, '-') < |section| <==> b.Some?
    ensures b.Some? ==> section[IndexOf(section, '-') + 1..] == b.value
  {
    hide Digits;
    match b {
      case None =>
        assert section == a;
        OneSpan(a);
      case Some(end) =>
        assert section == a + "-" + end;
        TwoSpans(a, end);
    }
  }

  lemma OneSpan(a: string)
    requires Digits(a)
    ensures IsSpan(a) && '#' !in a && IndexOf(a, '-') == |a|
  {
    DigitsHold(a, '-');
    DigitsHold(a, '#');
    IndexNone(a, '-');
  }

  lemma TwoSpans(a: string, b: string)
    requires Digits(a) && Digits(b)
    ensures var s := a + "-" + b;
      && IsSpan(s) && '#' !in s && IndexOf(s, '-') == |a| < |s|
      && s[..|a|] == a && s[|a| + 1..] == b
  {
    DigitsHold(a, '-');
    DigitsHold(a, '#');
    DigitsHold(b, '#');
    hide Digits;
    IndexPast(a, '-', b);
  }

  /** Lines before the '#': what the numbers are worth, or which is out of place. */
  ghost function Worth(a: string, b: Option<string>, hash: string): Parsed
    requires Digits(a) && (b.Some? ==> Digits(b.value))
  {
    if Value(a) > MAX_INT then Malformed(LineOutOfRange)
    else if Value(a) == 0 then Malformed(LineZero)
    else if b.None? then Anchored(Ref(Value(a), 0, hash))
    else if Value(b.value) > MAX_INT then Malformed(EndOutOfRange)
    else if Value(b.value) < Value(a) then Malformed(Reversed)
    else Anchored(Ref(Value(a), Value(b.value), hash))
  }

  /** Parse of a span and a hash around a '#': the numbers and the hash as written, or which number is out. */
  lemma ParseReadsNumbers(section: string, span: string, a: string, b: Option<string>, hash: string)
    requires SpanOf(span, a, b) && IsHash(hash) && section == span + "#" + hash
    ensures Parse(section) == Worth(a, b, hash)
  {
    hide Parse, IsHash, SpanOf;
    SpanParts(span, a, b);
    SpanThenHash(span, hash);
    hide IsSpan, Digits;
  }

  /** A hash alone is itself, and a line or a range is no anchor. */
  lemma ParseOfOnePart(section: string)
    ensures IsHash(section) ==> Parse(section) == Anchored(Ref(0, 0, section))
    ensures (exists a, b :: SpanOf(section, a, b)) ==> Parse(section) == Other
  {
    SpanIs(section);
    if IsHash(section) {
      SymbolsHold(section, '#');
      IndexNone(section, '#');
      AnchorIsNotNumeric(section);
    }
    hide IsSpan, SpanOf;
  }

  /** Neither a hash, nor a span, nor the two around a '#'. */
  ghost predicate IsNeither(section: string) {
    && !IsHash(section) && (forall a, b :: !SpanOf(section, a, b))
    && forall span, hash, a, b :: SpanOf(span, a, b) && IsHash(hash) ==> section != span + "#" + hash
  }

  /** Parse of anything else: what begins with digits and dashes before a '#' was meant as an anchor. */
  lemma ParseOfTheRest(section: string)
    requires IsNeither(section)
    ensures Parse(section) == if MeantAsAnchor(section) then Malformed(BadHash) else Other
  {
    hide IsHash, MeantAsAnchor, IsAnchorish, IsAnchor, IsSpan, IsNeither;
    NeitherIsNoAnchor(section);
    MeantIs(section);
  }

  lemma NeitherIsNoAnchor(section: string)
    requires IsNeither(section)
    ensures !IsSpan(section) && !IsAnchor(section)
  {
    hide IsSpan, IsHash, SpanOf;
    SpanIs(section);
    var i := IndexOf(section, '#');
    if i < |section| {
      assert section == section[..i] + "#" + section[i + 1..];
      SpanIs(section[..i]);
    }
  }

  ghost predicate MeantAsAnchor(section: string) {
    exists k :: 0 < k < |section| && section[k] == '#' && '0' <= section[0] <= '9'
                && forall j :: 0 <= j < k ==> '0' <= section[j] <= '9' || section[j] == '-'
  }

  lemma MeantIs(section: string)
    ensures MeantAsAnchor(section) <==> IsAnchorish(section)
  {
    var i := IndexOf(section, '#');
    if k :| 0 < k < |section| && section[k] == '#' && '0' <= section[0] <= '9'
            && forall j :: 0 <= j < k ==> '0' <= section[j] <= '9' || section[j] == '-'
    {
      IndexIs(section, '#', k);
    }
    if IsAnchorish(section) {
      assert section[i] == '#' && forall j :: 0 <= j < i ==> section[j] in section[..i];
    }
  }

  // ---------------------------------------------------------------------------
  // Line ranges
  // ---------------------------------------------------------------------------

  predicate White(c: char) { c == ' ' || c == '\t' || c == '\n' || c == '\r' || c == '\U{0C}' }

  function TrimWhite(s: string): (t: string)
    ensures |t| <= |s| && forall c :: c in t ==> c in s
    ensures s != "" && !White(s[0]) && !White(s[|s| - 1]) ==> t == s
    decreases |s|
  {
    if s != "" && White(s[0]) then TrimWhite(s[1..])
    else if s != "" && White(s[|s| - 1]) then TrimWhite(s[..|s| - 1])
    else s
  }

  /** ^\s*(\d+)\s*,\s*(\d+)\s*$ */
  predicate IsCommaRange(s: string) {
    var i := IndexOf(s, ',');
    i < |s| && Digits(TrimWhite(s[..i])) && Digits(TrimWhite(s[i + 1..]))
  }

  function NormalizeRange(section: string): string {
    var i := IndexOf(section, ',');
    if IsCommaRange(section) then TrimWhite(section[..i]) + "-" + TrimWhite(section[i + 1..]) else section
  }

  function ParsePositiveInt(s: string): Option<nat> {
    if Digits(s) && Value(s) <= MAX_INT then Some(Value(s)) else None
  }

  datatype NumericRange = NotARange | BackToFront | Bounds(start: nat, end: nat)

  /** ParseNumericRange. */
  function ParseNumericRange(section: string): NumericRange {
    var s := NormalizeRange(section);
    var dash := IndexOf(s, '-');
    if dash == |s| then
      match ParsePositiveInt(s)
      case None => NotARange
      case Some(n) => Bounds(n, n)
    else
      var start, end := ParsePositiveInt(s[..dash]), ParsePositiveInt(s[dash + 1..]);
      if start.None? || end.None? then NotARange
      else if start.value > end.value then BackToFront
      else Bounds(start.value, end.value)
  }

  lemma NormalizedHasNoComma(section: string)
    ensures IsCommaRange(section) ==> ',' !in NormalizeRange(section)
  {
  }

  lemma NormalizeTwice(section: string)
    ensures NormalizeRange(NormalizeRange(section)) == NormalizeRange(section)
  {
    NormalizedHasNoComma(section);
    if IsCommaRange(section) {
      NoCommaIsNormal(NormalizeRange(section));
    }
  }

  lemma NoCommaIsNormal(s: string)
    requires ',' !in s
    ensures NormalizeRange(s) == s
  {
    IndexNone(s, ',');
  }

  /** A written range reads back as the same bounds. */
  lemma RangeReadsBack(start: nat, end: nat)
    requires start <= end <= MAX_INT
    ensures ParseNumericRange(Itoa(start) + "-" + Itoa(end)) == Bounds(start, end)
    ensures ParseNumericRange(Itoa(start)) == Bounds(start, start)
  {
    ValueOfItoa(start);
    ValueOfItoa(end);
    TwoNumbers(start, end);
    OneNumber(start);
    NoCommaIsNormal(Itoa(start) + "-" + Itoa(end));
    NoCommaIsNormal(Itoa(start));
  }

  /** A section normalization leaves alone or rewrites means the same bounds. */
  lemma NormalizingKeepsBounds(section: string)
    ensures ParseNumericRange(NormalizeRange(section)) == ParseNumericRange(section)
  {
    NormalizeTwice(section);
  }

  ghost predicate Blanks(w: string) { forall c :: c in w ==> c in " \t\n\r\U{0C}" }

  /** The section is two numbers with a comma between, and white space around either. */
  ghost predicate CommaForm(section: string, a: string, b: string) {
    Digits(a) && Digits(b)
    && exists w, x, y, z :: Blanks(w) && Blanks(x) && Blanks(y) && Blanks(z)
         && section == Spaced(w, a, x) + "," + Spaced(y, b, z)
  }

  function Spaced(w: string, a: string, x: string): string { w + a + x }

  lemma {:induction false} TrimmedIs(w: string, a: string, x: string)
    requires Blanks(w) && Blanks(x) && a != "" && !White(a[0]) && !White(a[|a| - 1])
    ensures TrimWhite(Spaced(w, a, x)) == a
    decreases |w| + |x|
  {
    var s := Spaced(w, a, x);
    if w != "" {
      TrimmedIs(w[1..], a, x);
      assert s[1..] == Spaced(w[1..], a, x) && s[0] == w[0] && w[0] in w;
    } else if x != "" {
      var n := |x| - 1;
      TrimmedIs(w, a, x[..n]);
      assert s[..|s| - 1] == Spaced(w, a, x[..n]) && s[|s| - 1] == x[n] && x[n] in x && s[0] == a[0];
    } else {
      assert s == a;
    }
  }

  lemma {:induction false} TrimCuts(s: string) returns (w: string, x: string)
    ensures Blanks(w) && Blanks(x) && s == Spaced(w, TrimWhite(s), x)
    decreases |s|
  {
    w, x := "", "";
    hide White, Blanks, Spaced;
    NoBlanks();
    JustSpaced(s);
    if s != "" && White(s[0]) {
      var v;
      v, x := TrimCuts(s[1..]);
      assert s == [s[0]] + s[1..];
      w := [s[0]] + v;
      OneMoreBlank(s[0], v);
      SpacedMore(s[0], v, TrimWhite(s[1..]), x);
    } else if s != "" && White(s[|s| - 1]) {
      var y;
      w, y := TrimCuts(s[..|s| - 1]);
      assert s == s[..|s| - 1] + [s[|s| - 1]];
      x := y + [s[|s| - 1]];
      OneMoreBlank(s[|s| - 1], y);
      SpacedMore(s[|s| - 1], w, TrimWhite(s[..|s| - 1]), y);
    }
  }

  lemma JustSpaced(s: string)
    ensures Spaced("", s, "") == s
  {
  }

  lemma SpacedMore(c: char, w: string, a: string, x: string)
    ensures [c] + Spaced(w, a, x) == Spaced([c] + w, a, x) && Spaced(w, a, x) + [c] == Spaced(w, a, x + [c])
  {
  }

  lemma NoBlanks()
    ensures Blanks("")
  {
  }

  lemma OneMoreBlank(c: char, w: string)
    requires White(c) && Blanks(w)
    ensures Blanks([c] + w) && Blanks(w + [c])
  {
  }

  lemma DigitsAreNotWhite(a: string)
    requires Digits(a)
    ensures !White(a[0]) && !White(a[|a| - 1]) && ',' !in a
  {
    assert Digit(a[0]) && Digit(a[|a| - 1]);
  }

  lemma BlanksHoldNoComma(w: string)
    requires Blanks(w)
    ensures ',' !in w
  {
  }

  /** Two numbers around a comma are rewritten in their own order with a dash, and every other section is left. */
  lemma NormalizedIs(section: string)
    ensures forall a, b :: CommaForm(section, a, b) ==> NormalizeRange(section) == a + "-" + b && IsCommaRange(section)
    ensures (forall a, b :: !CommaForm(section, a, b)) ==> NormalizeRange(section) == section
  {
    forall a, b | CommaForm(section, a, b)
      ensures NormalizeRange(section) == a + "-" + b && IsCommaRange(section)
    {
      var w, x, y, z :| Blanks(w) && Blanks(x) && Blanks(y) && Blanks(z)
                        && section == Spaced(w, a, x) + "," + Spaced(y, b, z);
      DigitsAreNotWhite(a);
      DigitsAreNotWhite(b);
      TrimmedIs(w, a, x);
      TrimmedIs(y, b, z);
      BlanksHoldNoComma(w);
      BlanksHoldNoComma(x);
      IndexPast(Spaced(w, a, x), ',', Spaced(y, b, z));
    }
    if IsCommaRange(section) {
      var i := IndexOf(section, ',');
      var w, x := TrimCuts(section[..i]);
      var y, z := TrimCuts(section[i + 1..]);
      assert section == section[..i] + "," + section[i + 1..];
      assert CommaForm(section, TrimWhite(section[..i]), TrimWhite(section[i + 1..]));
    }
  }

  /** The section is one number, or two around a dash or a comma, and these are their values. */
  ghost predicate IsRangeOf(section: string, a: string, b: string) {
    || (Digits(section) && a == section && b == section)
    || (Digits(a) && Digits(b) && section == a + "-" + b)
    || CommaForm(section, a, b)
  }

  lemma NumbersDoNotMix(a: string, b: string)
    requires Digits(a) && Digits(b)
    ensures var s := a + "-" + b;
      IndexOf(s, '-') == |a| < |s| && s[..|a|] == a && s[|a| + 1..] == b && ',' !in s && !Digits(s)
  {
    DigitsHold(a, '-');
    DigitsHold(a, ',');
    DigitsHold(b, ',');
    IndexPast(a, '-', b);
    assert (a + "-" + b)[|a|] == '-';
  }

  lemma CommaHasAComma(section: string, a: string, b: string)
    requires CommaForm(section, a, b)
    ensures ',' in section
  {
    var w, x, y, z :| Blanks(w) && Blanks(x) && Blanks(y) && Blanks(z)
                      && section == Spaced(w, a, x) + "," + Spaced(y, b, z);
    assert section[|Spaced(w, a, x)|] == ',';
  }

  /** Two numbers as bounds: both within an int, and the first not past the second. */
  ghost function BoundsOf(a: string, b: string): NumericRange
    requires Digits(a) && Digits(b)
  {
    if Value(a) > MAX_INT || Value(b) > MAX_INT then NotARange
    else if Value(a) > Value(b) then BackToFront
    else Bounds(Value(a), Value(b))
  }

  lemma DashedRange(section: string, a: string, b: string)
    requires Digits(a) && Digits(b) && NormalizeRange(section) == a + "-" + b
    ensures ParseNumericRange(section) == BoundsOf(a, b)
  {
    hide NormalizeRange;
    NumbersDoNotMix(a, b);
    hide Digits;
  }

  /** ParseNumericRange reads the bounds a section writes, in their order. */
  lemma RangeIs(section: string, a: string, b: string)
    requires IsRangeOf(section, a, b)
    ensures Digits(a) && Digits(b) && ParseNumericRange(section) == BoundsOf(a, b)
  {
    hide CommaForm, NormalizeRange;
    NormalizedIs(section);
    if Digits(section) && a == section && b == section {
      OneSpan(section);
      DigitsHold(section, ',');
      NoCommaIsNormal(section);
      hide Digits;
    } else {
      hide ParseNumericRange, IsCommaRange;
      CommaHasNumbers(section, a, b);
      NumbersDoNotMix(a, b);
      if section == a + "-" + b {
        NoCommaIsNormal(section);
      }
      DashedRange(section, a, b);
    }
  }

  lemma CommaHasNumbers(section: string, a: string, b: string)
    ensures CommaForm(section, a, b) ==> Digits(a) && Digits(b)
  {
  }

  /** A section that writes none is no range. */
  lemma NoRangeIsRead(section: string)
    requires forall a, b :: !IsRangeOf(section, a, b)
    ensures ParseNumericRange(section) == NotARange
  {
    hide CommaForm, NormalizeRange;
    NormalizedIs(section);
    assert forall a, b :: CommaForm(section, a, b) ==> IsRangeOf(section, a, b);
    assert NormalizeRange(section) == section;
    assert !IsRangeOf(section, section, section);
    var dash := IndexOf(section, '-');
    if dash < |section| {
      assert section == section[..dash] + "-" + section[dash + 1..];
      assert !IsRangeOf(section, section[..dash], section[dash + 1..]);
    }
    hide IsRangeOf, Digits;
  }

  // ---------------------------------------------------------------------------
  // A selection plan's hunks
  // ---------------------------------------------------------------------------

  datatype PlanHunk = PlanHunk(range: string, digest: string)

  /** refRange. */
  function RefRange(ref: Ref): string {
    if ref.end > ref.line then Itoa(ref.line) + "-" + Itoa(ref.end) else Itoa(ref.line)
  }

  /** The hunks buildSelectionPlan writes for one file's refs. */
  method PlanHunks(refs: seq<Ref>) returns (hunks: seq<PlanHunk>)
    ensures |hunks| == |refs|
    ensures forall i :: 0 <= i < |refs| ==> hunks[i] == PlanHunk(RefRange(refs[i]), refs[i].hash)
    ensures forall i :: 0 <= i < |refs| ==>
              var ref := refs[i];
              hunks[i].range == Itoa(ref.line) + if ref.end > ref.line then "-" + Itoa(ref.end) else ""
  {
    forall i | 0 <= i < |refs|
      ensures RefRange(refs[i])
              == Itoa(refs[i].line) + if refs[i].end > refs[i].line then "-" + Itoa(refs[i].end) else ""
    {
    }
    hide RefRange;
    hunks := [];
    for i := 0 to |refs|
      invariant |hunks| == i && forall k :: 0 <= k < i ==> hunks[k] == PlanHunk(RefRange(refs[k]), refs[k].hash)
    {
      hunks := hunks + [PlanHunk(RefRange(refs[i]), refs[i].hash)];
    }
  }

  function PlanRef(hunk: PlanHunk): Option<Ref> {
    match ParseNumericRange(hunk.range)
    case Bounds(start, end) => Some(Ref(start, if end != start then end else 0, hunk.digest))
    case _ => None
  }

  /** planRefs: it fails on the first range that does not parse. */
  method PlanRefs(hunks: seq<PlanHunk>) returns (refs: Option<seq<Ref>>)
    ensures refs.None? <==> exists i :: 0 <= i < |hunks| && PlanRef(hunks[i]).None?
    ensures refs.Some? ==> |refs.value| == |hunks|
    ensures refs.Some? ==> forall i :: 0 <= i < |hunks| ==> PlanRef(hunks[i]) == Some(refs.value[i])
  {
    hide PlanRef;
    var read := [];
    for i := 0 to |hunks|
      invariant |read| == i && forall k :: 0 <= k < i ==> PlanRef(hunks[k]) == Some(read[k])
    {
      var ref := PlanRef(hunks[i]);
      if ref.None? {
        return None;
      }
      read := read + [ref.value];
    }
    return Some(read);
  }

  /** A planned ref reads back whole, but for the end of a range that is not past its line; it comes back
      equal exactly when it had no such end. */
  lemma PlanRoundTrip(ref: Ref)
    requires ref.line <= MAX_INT && ref.end <= MAX_INT
    ensures var back := PlanRef(PlanHunk(RefRange(ref), ref.hash));
      && back == Some(ref.(end := if ref.end > ref.line then ref.end else 0))
      && (back == Some(ref) <==> ref.end == 0 || ref.end > ref.line)
  {
    RangeReadsBack(ref.line, if ref.end > ref.line then ref.end else ref.line);
  }
}
