/** Where an anchored reference lands in a file as it is now, and the read arguments it is rewritten to. */
module AnchorResolve {
  import opened Wrappers
  import opened Text
  import opened GtLines
  import opened AnchorHash
  import opened AnchorSyntax

  /** FNV-1a over a text, one 32-bit value. */
  type Digest = string -> nat

  function Of(digest: Digest, line: string): string {
    Encode(digest(TrimSpace(line)) % FOLD)
  }

  /** A line's reference, bare or numbered, is one the grammar reads back. */
  lemma LineReferenceReadsBack(digest: Digest, lines: seq<string>, l: nat)
    requires 1 <= l <= |lines| && l <= MAX_INT
    ensures Parse(Format(l, Of(digest, lines[l - 1]))) == Anchored(Ref(l, 0, Of(digest, lines[l - 1])))
    ensures Parse(Of(digest, lines[l - 1])) == Anchored(Ref(0, 0, Of(digest, lines[l - 1])))
  {
    EncodeIsAHash(digest(TrimSpace(lines[l - 1])) % FOLD);
    var h := Of(digest, lines[l - 1]);
    hide Parse, Of, IsHash;
    ParseUndoesRender(Ref(l, 0, h));
    ParseUndoesRender(Ref(0, 0, h));
  }

  function TrimmedLines(lines: seq<string>): (t: seq<string>)
    ensures |t| == |lines| && forall i :: 0 <= i < |t| ==> t[i] == TrimSpace(lines[i])
  {
    seq(|lines|, i requires 0 <= i < |lines| => TrimSpace(lines[i]))
  }

  /** OfLines writes the trimmed lines one after another: it hashes their join, and one line as Of does. */
  method OfLines(digest: Digest, lines: seq<string>) returns (h: string)
    ensures IsHash(h) && h == Encode(digest(Join(TrimmedLines(lines))) % FOLD)
    ensures |lines| == 1 ==> h == Of(digest, lines[0])
  {
    hide TrimSpace, Encode, IsHash;
    var written := "";
    var trimmed := TrimmedLines(lines);
    var i := 0;
    while i < |lines|
      invariant 0 <= i <= |lines| && written == Join(trimmed[..i])
    {
      assert trimmed[..i + 1] == trimmed[..i] + [trimmed[i]];
      if i > 0 {
        JoinApart(trimmed[..i], [trimmed[i]]);
        written := written + "\n";
      }
      written := written + TrimSpace(lines[i]);
      i := i + 1;
    }
    assert trimmed[..i] == trimmed;
    EncodeIsAHash(digest(written) % FOLD);
    h := Encode(digest(written) % FOLD);
  }

  datatype Range = Range(start: nat, end: nat)

  datatype Move = Move(from: nat, to: nat)

  datatype Failure = NotFound | Ambiguous(lines: seq<nat>)

  datatype Landing = Landing(range: Range, move: Option<Move>)

  /** Line l of the file, from 1, has the content a hash names. */
  predicate Occurs(digest: Digest, lines: seq<string>, hash: string, l: nat) {
    1 <= l <= |lines| && Of(digest, lines[l - 1]) == hash
  }

  function Distance(a: nat, b: nat): nat { if a < b then b - a else a - b }

  /** a is nearer the line than b, or as near and earlier. */
  predicate Nearer(a: nat, b: nat, line: nat) {
    Distance(a, line) < Distance(b, line) || (Distance(a, line) == Distance(b, line) && a < b)
  }

  /** The occurrence nearest the hint, the earlier of two as near. */
  ghost predicate IsNearest(digest: Digest, lines: seq<string>, ref: Ref, l: nat) {
    && Occurs(digest, lines, ref.hash, l)
    && forall k: nat :: Occurs(digest, lines, ref.hash, k) && k != l ==> Nearer(l, k, ref.line)
  }

  ghost predicate OccursOnce(digest: Digest, lines: seq<string>, hash: string) {
    exists l: nat :: Occurs(digest, lines, hash, l) && forall k: nat :: Occurs(digest, lines, hash, k) ==> k == l
  }

  ghost predicate OccursSomewhere(digest: Digest, lines: seq<string>, hash: string) {
    exists l: nat :: Occurs(digest, lines, hash, l)
  }

  /** When Resolve finds a line: with a hint when the content occurs, bare when it occurs once. */
  ghost predicate Resolves(digest: Digest, lines: seq<string>, ref: Ref) {
    if ref.line > 0 then OccursSomewhere(digest, lines, ref.hash) else OccursOnce(digest, lines, ref.hash)
  }

  /** What a failure says: the content is nowhere, or a bare reference matches exactly these lines. */
  ghost predicate Explains(digest: Digest, lines: seq<string>, ref: Ref, failure: Failure) {
    match failure
    case NotFound => !OccursSomewhere(digest, lines, ref.hash)
    case Ambiguous(found) =>
      ref.line == 0 && |found| > 1 && forall l: nat :: l in found <==> Occurs(digest, lines, ref.hash, l)
  }

  ghost predicate Lands(digest: Digest, lines: seq<string>, ref: Ref, landing: Landing) {
    var at := landing.range;
    && 1 <= at.start <= at.end <= |lines| && at == RangeAt(lines, ref, at.start)
    && Occurs(digest, lines, ref.hash, at.start)
    && (ref.line > 0 ==> IsNearest(digest, lines, ref, at.start))
    && landing.move == if ref.line == 0 || at.start == ref.line then None else Some(Move(ref.line, at.start))
  }

  function Least(a: int, b: int): int { if a < b then a else b }

  /** rangeAt, its intermediate values in int. */
  function RangeAt(lines: seq<string>, ref: Ref, start: nat): (r: Range)
    requires 1 <= start <= |lines|
    ensures r.start == start && start <= r.end <= |lines|
  {
    var shifted := Least(ref.end, |lines|) + (start - ref.line);
    if ref.end == 0 then Range(start, start)
    else if shifted < start then Range(start, start)
    else if shifted > |lines| then Range(start, |lines|)
    else Range(start, shifted)
  }

  /** A range keeps its length exactly when both its old end and its moved one are in the file, and is
      only ever cut short. */
  lemma RangeKeepsItsLength(lines: seq<string>, ref: Ref, start: nat)
    requires 1 <= start <= |lines|
    ensures ref.end == 0 ==> RangeAt(lines, ref, start).end == start
    ensures ref.end > ref.line
      ==> var length, end := ref.end - ref.line, RangeAt(lines, ref, start).end;
          && end - start <= length
          && (end - start == length <==> ref.end <= |lines| && start + length <= |lines|)
  {
  }

  /** Clamping the end to the file before the shift keeps every intermediate value in a 64-bit int, for a
      file whose line count is below 2^62; shifting first does not. */
  lemma ShiftNeverOverflows(lines: seq<string>, ref: Ref, start: nat)
    requires |lines| < 0x4000_0000_0000_0000 && 1 <= start <= |lines| && ref.line <= MAX_INT && ref.end <= MAX_INT
    ensures -MAX_INT <= start - ref.line <= MAX_INT
    ensures -MAX_INT <= Least(ref.end, |lines|) + (start - ref.line) <= MAX_INT
    ensures ref == Ref(1, MAX_INT, ref.hash) && start == 2 ==> ref.end + (start - ref.line) > MAX_INT
  {
  }

  /** The loop that collects the lines with the content, ascending. */
  method Candidates(digest: Digest, lines: seq<string>, hash: string) returns (found: seq<nat>)
    ensures forall l: nat :: l in found <==> Occurs(digest, lines, hash, l)
    ensures forall i, j :: 0 <= i < j < |found| ==> found[i] < found[j]
  {
    hide Of;
    found := [];
    for i := 0 to |lines|
      invariant forall l: nat :: l in found <==> l <= i && Occurs(digest, lines, hash, l)
      invariant forall a :: 0 <= a < |found| ==> found[a] <= i
      invariant forall a, b :: 0 <= a < b < |found| ==> found[a] < found[b]
    {
      if Of(digest, lines[i]) == hash {
        found := found + [i + 1];
      }
    }
  }

  lemma CandidatesDecide(digest: Digest, lines: seq<string>, hash: string, found: seq<nat>)
    requires forall l: nat :: l in found <==> Occurs(digest, lines, hash, l)
    requires forall i, j :: 0 <= i < j < |found| ==> found[i] < found[j]
    ensures OccursSomewhere(digest, lines, hash) <==> found != []
    ensures OccursOnce(digest, lines, hash) <==> |found| == 1
  {
    hide Occurs;
    if found != [] {
      assert found[0] in found;
      assert |found| > 1 ==> found[1] in found;
    }
  }

  /** nearest. */
  method Nearest(candidates: seq<nat>, line: nat) returns (best: nat)
    requires candidates != [] && forall i, j :: 0 <= i < j < |candidates| ==> candidates[i] < candidates[j]
    ensures best in candidates
    ensures forall k :: k in candidates && k != best ==> Nearer(best, k, line)
  {
    best := candidates[0];
    var i := 1;
    while i < |candidates|
      invariant 1 <= i <= |candidates| && best in candidates[..i]
      invariant forall j :: 0 <= j < i && candidates[j] != best ==> Nearer(best, candidates[j], line)
    {
      if Distance(candidates[i], line) < Distance(best, line) {
        best := candidates[i];
      }
      i := i + 1;
    }
    assert candidates[..i] == candidates;
  }

  lemma LandsAt(digest: Digest, lines: seq<string>, ref: Ref, start: nat)
    requires Occurs(digest, lines, ref.hash, start) && (ref.line > 0 ==> IsNearest(digest, lines, ref, start))
    ensures Lands(digest, lines, ref, LandingAt(lines, ref, start))
  {
    hide Of;
  }

  function LandingAt(lines: seq<string>, ref: Ref, start: nat): Landing
    requires 1 <= start <= |lines|
  {
    Landing(RangeAt(lines, ref, start),
            if ref.line == 0 || start == ref.line then None else Some(Move(ref.line, start)))
  }

  /** Resolve. A hinted reference lands on the occurrence nearest its hint and fails only when there is
      none; a bare one lands exactly when its content occurs once. The range lies in the file, and a
      move is reported exactly when a hinted line is not where it landed. */
  method Resolve(digest: Digest, lines: seq<string>, ref: Ref) returns (res: Result<Landing, Failure>)
    ensures res.Success? <==> Resolves(digest, lines, ref)
    ensures res.Success? ==> Lands(digest, lines, ref, res.value)
    ensures res.Failure? ==> Explains(digest, lines, ref, res.error)
  {
    hide Of, OccursOnce, OccursSomewhere, RangeAt, Lands;
    if 1 <= ref.line <= |lines| && Of(digest, lines[ref.line - 1]) == ref.hash {
      HitDecides(digest, lines, ref);
      LandsAt(digest, lines, ref, ref.line);
      return Success(Landing(RangeAt(lines, ref, ref.line), None));
    }
    var candidates := Candidates(digest, lines, ref.hash);
    CandidatesDecide(digest, lines, ref.hash, candidates);
    assert forall l: nat :: l in candidates ==> 1 <= l <= |lines| && l != ref.line;
    if candidates == [] {
      return Failure(NotFound);
    }
    assert candidates[0] in candidates;
    if ref.line == 0 && |candidates| == 1 {
      LandsAt(digest, lines, ref, candidates[0]);
      return Success(Landing(RangeAt(lines, ref, candidates[0]), None));
    }
    if ref.line == 0 {
      return Failure(Ambiguous(candidates));
    }
    var to := Nearest(candidates, ref.line);
    hide Occurs, Nearer;
    LandsAt(digest, lines, ref, to);
    return Success(Landing(RangeAt(lines, ref, to), Some(Move(ref.line, to))));
  }

  lemma HitDecides(digest: Digest, lines: seq<string>, ref: Ref)
    requires ref.line > 0 && Occurs(digest, lines, ref.hash, ref.line)
    ensures OccursSomewhere(digest, lines, ref.hash) && IsNearest(digest, lines, ref, ref.line)
  {
    hide Occurs;
  }

  /** At most one line is nearest, so a resolution is decided by the content and the hint alone. */
  lemma NearestIsUnique(digest: Digest, lines: seq<string>, ref: Ref, a: nat, b: nat)
    requires IsNearest(digest, lines, ref, a) && IsNearest(digest, lines, ref, b)
    ensures a == b
  {
  }

  /** An edit that only moves lines cannot lose a reference: a file holding the anchored line somewhere
      still resolves it, to a line of the same content. */
  lemma MovedContentStillOccurs(digest: Digest, before: seq<string>, after: seq<string>, ref: Ref, l: nat)
    requires Occurs(digest, before, ref.hash, l) && multiset(before) == multiset(after)
    ensures OccursSomewhere(digest, after, ref.hash)
  {
    assert before[l - 1] in multiset(after);
    var i :| 0 <= i < |after| && after[i] == before[l - 1];
    assert Occurs(digest, after, ref.hash, i + 1);
  }

  // ---------------------------------------------------------------------------
  // rewriteRead and rewriteRelated
  // ---------------------------------------------------------------------------

  datatype ReadArgs = ReadArgs(path: string, section: string, full: bool)

  datatype Refused = BadAnchor(fault: Fault) | Unreadable | Unresolved(failure: Failure)

  datatype Rewritten<T> = Rewritten(args: T, note: Option<Move>)

  /** The files of a working copy at one moment. */
  type Files = string -> Option<seq<string>>

  /** Why a reference into a file is refused: the file cannot be read, or the reference does not resolve. */
  ghost predicate RefusedAt(digest: Digest, file: Option<seq<string>>, ref: Ref, why: Refused) {
    match why
    case BadAnchor(_) => false
    case Unreadable => file.None?
    case Unresolved(failure) =>
      file.Some? && !Resolves(digest, file.value, ref) && Explains(digest, file.value, ref, failure)
  }

  /** Why a read is refused: its section is a bad anchor, or the anchor in it is refused. */
  ghost predicate ReadRefused(digest: Digest, files: Files, a: ReadArgs, why: Refused) {
    !a.full
    && match Parse(NormalizeRange(a.section))
       case Other => false
       case Malformed(fault) => why == BadAnchor(fault)
       case Anchored(ref) => RefusedAt(digest, files(a.path), ref, why)
  }

  /** What a read needs to be rewritten. */
  ghost predicate CanRead(digest: Digest, files: Files, a: ReadArgs) {
    a.full
    || match Parse(NormalizeRange(a.section))
       case Other => true
       case Malformed(_) => false
       case Anchored(ref) => files(a.path).Some? && Resolves(digest, files(a.path).value, ref)
  }

  /** A comma range is rewritten with a dash and is no anchor; other sections are left. */
  lemma CommaRangesPass(section: string)
    ensures forall x, y :: CommaForm(section, x, y) ==>
              NormalizeRange(section) == x + "-" + y && Parse(x + "-" + y) == Other
    ensures (forall x, y :: !CommaForm(section, x, y)) ==> NormalizeRange(section) == section
  {
    NormalizedIs(section);
    forall x, y | CommaForm(section, x, y) ensures Parse(x + "-" + y) == Other {
      NumbersDoNotMix(x, y);
    }
  }

  /** rewriteRead. */
  method RewriteRead(digest: Digest, files: Files, a: ReadArgs) returns (res: Result<Rewritten<ReadArgs>, Refused>)
    ensures res.Success? <==> CanRead(digest, files, a)
    ensures res.Success? ==> ReadLands(digest, files, a, res.value)
    ensures res.Failure? ==> ReadRefused(digest, files, a, res.error)
    ensures !a.full ==> forall x, y :: CommaForm(a.section, x, y) ==>
              res == Success(Rewritten(ReadArgs(a.path, x + "-" + y, false), None))
    ensures !a.full && (forall x, y :: !CommaForm(a.section, x, y)) && Parse(a.section) == Other ==>
              res == Success(Rewritten(a, None))
    ensures Settled(a) ==> res == Success(Rewritten(a, None))
  {
    if a.full {
      return Success(Rewritten(a, None));
    }
    var section := NormalizeRange(a.section);
    CommaRangesPass(a.section);
    var parsed := Parse(section);
    hide CommaForm, NormalizeRange;
    match parsed
    case Malformed(fault) => return Failure(BadAnchor(fault));
    case Other => return Success(Rewritten(a.(section := section), None));
    case Anchored(ref) =>
      var lines := files(a.path);
      if lines.None? {
        return Failure(Unreadable);
      }
      var landed := Resolve(digest, lines.value, ref);
      if landed.Failure? {
        return Failure(Unresolved(landed.error));
      }
      var range := landed.value.range;
      return Success(Rewritten(a.(section := Itoa(range.start) + "-" + Itoa(range.end)), landed.value.move));
  }

  /** Arguments a rewrite leaves alone: no anchor in them, and no comma range. */
  predicate Settled(a: ReadArgs) {
    a.full || (NormalizeRange(a.section) == a.section && Parse(a.section) == Other)
  }

  /** What a rewrite that succeeds answers: the arguments as they were, a normalized range, or the lines
      where the anchored content is now. */
  ghost predicate ReadLands(digest: Digest, files: Files, a: ReadArgs, out: Rewritten<ReadArgs>) {
    && out.args.path == a.path && out.args.full == a.full
    && (a.full ==> out == Rewritten(a, None))
    && (!a.full && Parse(NormalizeRange(a.section)) == Other
        ==> out == Rewritten(a.(section := NormalizeRange(a.section)), None))
    && (!a.full && Parse(NormalizeRange(a.section)) != Other ==> WrittenAsLines(digest, files, a, out))
  }

  ghost predicate WrittenAsLines(digest: Digest, files: Files, a: ReadArgs, out: Rewritten<ReadArgs>) {
    && Parse(NormalizeRange(a.section)).Anchored? && files(a.path).Some?
    && exists landing: Landing ::
         && Lands(digest, files(a.path).value, Parse(NormalizeRange(a.section)).ref, landing)
         && out.args.section == Itoa(landing.range.start) + "-" + Itoa(landing.range.end)
         && out.note == landing.move
  }

  /** A span without '#' is never read as an anchor. */
  lemma SpanPassesThrough(start: nat, end: nat)
    ensures Parse(Itoa(start) + "-" + Itoa(end)) == Other && Parse(Itoa(start)) == Other
  {
    TwoNumbers(start, end);
    OneNumber(start);
  }

  /** Rewriting twice is rewriting once: whatever the files hold by then, the second rewrite answers the
      first one's arguments and no note. */
  lemma RewrittenIsSettled(digest: Digest, files: Files, a: ReadArgs, out: Rewritten<ReadArgs>)
    requires ReadLands(digest, files, a, out)
    ensures Settled(out.args)
  {
    if !a.full {
      NormalizeTwice(a.section);
      if Parse(NormalizeRange(a.section)) != Other {
        var landing :| Lands(digest, files(a.path).value, Parse(NormalizeRange(a.section)).ref, landing)
                       && out.args.section == Itoa(landing.range.start) + "-" + Itoa(landing.range.end);
        SpanPassesThrough(landing.range.start, landing.range.end);
        TwoNumbers(landing.range.start, landing.range.end);
        NoCommaIsNormal(out.args.section);
      }
    }
  }

  method RewriteTwice(digest: Digest, now: Files, later: Files, a: ReadArgs)
    returns (once: Result<Rewritten<ReadArgs>, Refused>, twice: Result<Rewritten<ReadArgs>, Refused>)
    ensures once.Success? ==> twice == Success(Rewritten(once.value.args, None))
    ensures once.Failure? ==> twice == once
  {
    once := RewriteRead(digest, now, a);
    twice := once;
    if once.Success? {
      RewrittenIsSettled(digest, now, a, once.value);
      twice := RewriteRead(digest, later, once.value.args);
    }
  }

  /** ParseLoc: split at the last colon; None when what follows is no anchor. */
  datatype Location = NoAnchor | At(path: string, ref: Ref) | BadLocation(fault: Fault)

  function LastIndexOf(s: string, c: char): (i: int)
    ensures -1 <= i < |s| && (i >= 0 ==> s[i] == c) && forall m :: i < m < |s| ==> s[m] != c
  {
    if s == "" then -1 else if s[|s| - 1] == c then |s| - 1 else LastIndexOf(s[..|s| - 1], c)
  }

  lemma LastIndexPast(a: string, c: char, b: string)
    requires c !in b
    ensures LastIndexOf(a + [c] + b, c) == |a|
    ensures (a + [c] + b)[..|a|] == a && (a + [c] + b)[|a| + 1..] == b
  {
    LastIndexIs(a + [c] + b, c, |a|);
  }

  lemma LastIndexIs(s: string, c: char, i: nat)
    requires i < |s| && s[i] == c && forall m :: i < m < |s| ==> s[m] != c
    ensures LastIndexOf(s, c) == i
  {
  }

  function ParseLoc(loc: string): Location {
    var i := LastIndexOf(loc, ':');
    if i < 0 then NoAnchor
    else
      match Parse(loc[i + 1..])
      case Other => NoAnchor
      case Malformed(fault) => BadLocation(fault)
      case Anchored(ref) => At(loc[..i], ref)
  }

  ghost predicate RelatedRefused(digest: Digest, files: Files, query: string, why: Refused) {
    match ParseLoc(query)
    case NoAnchor => false
    case BadLocation(fault) => why == BadAnchor(fault)
    case At(path, ref) => RefusedAt(digest, files(path), ref, why)
  }

  ghost predicate CanRelate(digest: Digest, files: Files, query: string) {
    match ParseLoc(query)
    case NoAnchor => true
    case BadLocation(_) => false
    case At(path, ref) => files(path).Some? && Resolves(digest, files(path).value, ref)
  }

  /** rewriteRelated. */
  method RewriteRelated(digest: Digest, files: Files, query: string) returns (res: Result<Rewritten<string>, Refused>)
    ensures res.Success? <==> CanRelate(digest, files, query)
    ensures res.Failure? ==> RelatedRefused(digest, files, query, res.error)
    ensures ParseLoc(query) == NoAnchor ==> res == Success(Rewritten(query, None))
    ensures res.Success? ==> ParseLoc(res.value.args) == NoAnchor
    ensures res.Success? && ParseLoc(query) != NoAnchor ==> WrittenAsLine(digest, files, query, res.value)
  {
    var loc := ParseLoc(query);
    match loc
    case NoAnchor => return Success(Rewritten(query, None));
    case BadLocation(fault) => return Failure(BadAnchor(fault));
    case At(path, ref) =>
      var lines := files(path);
      if lines.None? {
        return Failure(Unreadable);
      }
      var landed := Resolve(digest, lines.value, ref);
      if landed.Failure? {
        return Failure(Unresolved(landed.error));
      }
      NumberedIsNoAnchor(path, landed.value.range.start);
      return Success(Rewritten(path + ":" + Itoa(landed.value.range.start), landed.value.move));
  }

  /** A location written back: the path it named, and the line where its anchored content is now. */
  ghost predicate WrittenAsLine(digest: Digest, files: Files, query: string, out: Rewritten<string>) {
    var loc := ParseLoc(query);
    && loc.At? && files(loc.path).Some?
    && exists landing: Landing ::
         && Lands(digest, files(loc.path).value, loc.ref, landing)
         && out.args == loc.path + ":" + Itoa(landing.range.start) && out.note == landing.move
  }

  lemma NumberedIsNoAnchor(path: string, n: nat)
    ensures ParseLoc(path + ":" + Itoa(n)) == NoAnchor
  {
    DigitsHold(Itoa(n), ':');
    LastIndexPast(path, ':', Itoa(n));
    SpanPassesThrough(n, n);
  }

  /** A location written with an anchor reads back as that path and reference, whatever colons the path has. */
  lemma LocationReadsBack(path: string, ref: Ref)
    requires IsRef(ref)
    ensures ParseLoc(path + ":" + Render(ref)) == At(path, ref)
  {
    ParseUndoesRender(ref);
    NoColon(ref);
    hide Parse, Render, IsRef;
    LastIndexPast(path, ':', Render(ref));
  }

  lemma NoColon(ref: Ref)
    requires IsRef(ref)
    ensures ':' !in Render(ref)
  {
  }
}
