/** Which paths an ordered list of include and exclude globs selects. */
module GlobMatch {
  import opened Wrappers

  datatype Rule = Rule(pattern: string, negated: bool, dirOnly: bool, basename: bool)

  datatype Verdict = Unmatched | Included | Excluded

  /** doublestar.Match, None where it errors. */
  type Matcher = (string, string) -> Option<bool>

  predicate HasSuffix(s: string, suffix: string) {
    |suffix| <= |s| && s[|s| - |suffix|..] == suffix
  }

  function CompileRule(glob: string): Rule {
    var negated := "!" <= glob;
    var bare := if negated then glob[1..] else glob;
    var dirOnly := HasSuffix(bare, "/");
    var cut := if dirOnly then bare[..|bare| - 1] else bare;
    var pattern := if HasSuffix(cut, "/**") then cut + "/*" else cut;
    Rule(pattern, negated, dirOnly, '/' !in pattern)
  }

  function Compile(globs: seq<string>): (rules: seq<Rule>)
    ensures |rules| == |globs| && forall i :: 0 <= i < |globs| ==> rules[i] == CompileRule(globs[i])
  {
    seq(|globs|, i requires 0 <= i < |globs| => CompileRule(globs[i]))
  }

  /** path.Base. */
  function Base(p: string): string {
    var bare := Unslashed(p);
    if p == "" then "." else if bare == "" then "/" else LastElement(bare)
  }

  function Unslashed(p: string): string {
    if p != "" && p[|p| - 1] == '/' then Unslashed(p[..|p| - 1]) else p
  }

  function LastElement(p: string): string {
    if p == "" || p[|p| - 1] == '/' then "" else LastElement(p[..|p| - 1]) + [p[|p| - 1]]
  }

  function Asked(m: Matcher, r: Rule, target: string): Option<bool> {
    m(r.pattern, if r.basename then Base(target) else target)
  }

  predicate Matches(m: Matcher, r: Rule, target: string, isDir: bool) {
    (r.dirOnly ==> isDir) && Asked(m, r, target) == Some(true)
  }

  /** Rule i is the last that matches. */
  predicate LastMatch(m: Matcher, rules: seq<Rule>, target: string, isDir: bool, i: nat) {
    i < |rules| && Matches(m, rules[i], target, isDir) && forall j :: i < j < |rules| ==>
        !Matches(m, rules[j], target, isDir)
  }

  /** The target's last match is an exclusion. */
  predicate ExcludedBy(m: Matcher, rules: seq<Rule>, target: string, isDir: bool) {
    exists i :: 0 <= i < |rules| && LastMatch(m, rules, target, isDir, i) && rules[i].negated
  }

  /** The target's last match is an include. */
  predicate IncludedBy(m: Matcher, rules: seq<Rule>, target: string, isDir: bool) {
    exists i :: 0 <= i < |rules| && LastMatch(m, rules, target, isDir, i) && !rules[i].negated
  }

  predicate MatchedBy(m: Matcher, rules: seq<Rule>, target: string, isDir: bool) {
    exists i :: 0 <= i < |rules| && Matches(m, rules[i], target, isDir)
  }

  predicate HasInclude(rules: seq<Rule>) {
    exists i :: 0 <= i < |rules| && !rules[i].negated
  }

  /** The directory p[..i] holds p and is excluded. */
  predicate PrunedAt(m: Matcher, rules: seq<Rule>, p: string, i: nat) {
    i < |p| && p[i] == '/' && ExcludedBy(m, rules, p[..i], true)
  }

  predicate Pruned(m: Matcher, rules: seq<Rule>, p: string) {
    exists i :: 0 <= i < |p| && PrunedAt(m, rules, p, i)
  }

  /** What the list selects: everything when empty; otherwise a path under no excluded directory whose
      last match is an include, or that nothing matches when the list holds no include. */
  predicate Selected(m: Matcher, globs: seq<string>, p: string) {
    var rules := Compile(globs);
    globs == []
    || (!Pruned(m, rules, p)
        && (IncludedBy(m, rules, p, false) || (!MatchedBy(m, rules, p, false) && !HasInclude(rules))))
  }

  /** Rule i has a say about the target. */
  ghost predicate Applies(r: Rule, isDir: bool) { !r.dirOnly || isDir }

  /** Asked from the end, a pattern errors before any has matched. */
  ghost predicate ErrsFirst(m: Matcher, rules: seq<Rule>, target: string, isDir: bool) {
    exists i :: 0 <= i < |rules| && Applies(rules[i], isDir) && Asked(m, rules[i], target).None?
                && forall j :: i < j < |rules| && Applies(rules[j], isDir) ==> Asked(m, rules[j], target) == Some(false)
  }

  /** No directory of p[..n] is excluded, and none makes a pattern error. */
  ghost predicate ClearUpTo(m: Matcher, rules: seq<Rule>, p: string, n: nat)
    requires n <= |p|
  {
    forall k :: 0 <= k < n && p[k] == '/' ==> !PrunedAt(m, rules, p, k) && !ErrsFirst(m, rules, p[..k], true)
  }

  /** A pattern errors over the path or a directory of it, with nothing excluded before. */
  ghost predicate Errs(m: Matcher, rules: seq<Rule>, p: string) {
    || (exists k :: 0 <= k < |p| && p[k] == '/' && ClearUpTo(m, rules, p, k) && ErrsFirst(m, rules, p[..k], true))
    || (ClearUpTo(m, rules, p, |p|) && ErrsFirst(m, rules, p, false))
  }

  ghost predicate NeverErrs(m: Matcher) {
    forall pattern: string, target: string :: m(pattern, target).Some?
  }

  /** lastVerdict: rules after the deciding one were asked, and those before it were not. */
  method LastVerdict(m: Matcher, rules: seq<Rule>, target: string, isDir: bool) returns (v: Option<Verdict>)
    ensures v.Some? ==> (v.value == Excluded <==> ExcludedBy(m, rules, target, isDir))
    ensures v.Some? ==> (v.value == Included <==> IncludedBy(m, rules, target, isDir))
    ensures v.Some? ==> (v.value == Unmatched <==> !MatchedBy(m, rules, target, isDir))
    ensures v.None? <==> ErrsFirst(m, rules, target, isDir)
  {
    var i := |rules|;
    while i > 0
      invariant 0 <= i <= |rules| && forall j :: i <= j < |rules| ==> !Matches(m, rules[j], target, isDir)
      invariant forall j :: i <= j < |rules| && Applies(rules[j], isDir) ==> Asked(m, rules[j], target) == Some(false)
    {
      i := i - 1;
      var r := rules[i];
      if r.dirOnly && !isDir {
        continue;
      }
      var ok := Asked(m, r, target);
      if ok.None? {
        return None;
      }
      if ok.value {
        assert LastMatch(m, rules, target, isDir, i);
        return Some(if r.negated then Excluded else Included);
      }
    }
    return Some(Unmatched);
  }

  lemma OneMoreInclude(rules: seq<Rule>, r: Rule)
    ensures HasInclude(rules + [r]) <==> HasInclude(rules) || !r.negated
  {
    var more := rules + [r];
    assert more[|rules|] == r && forall i :: 0 <= i < |rules| ==> more[i] == rules[i];
  }

  method CompileAll(globs: seq<string>) returns (rules: seq<Rule>, hasInclude: bool)
    ensures rules == Compile(globs) && hasInclude == HasInclude(rules)
  {
    hide CompileRule;
    rules, hasInclude := [], false;
    var i := 0;
    while i < |globs|
      invariant 0 <= i <= |globs| && |rules| == i && hasInclude == HasInclude(rules)
      invariant forall k :: 0 <= k < i ==> rules[k] == CompileRule(globs[k])
    {
      OneMoreInclude(rules, CompileRule(globs[i]));
      rules := rules + [CompileRule(globs[i])];
      hasInclude := hasInclude || !rules[i].negated;
      i := i + 1;
    }
  }

  /** MatchGlobs agrees with the selection whenever it answers, and answers whenever no pattern errors. */
  method MatchGlobs(m: Matcher, p: string, globs: seq<string>) returns (selected: Option<bool>)
    ensures selected.Some? ==> selected.value == Selected(m, globs, p)
    ensures selected.None? <==> globs != [] && Errs(m, Compile(globs), p)
    ensures NeverErrs(m) ==> selected.Some?
  {
    if globs == [] {
      return Some(true);
    }
    if NeverErrs(m) {
      NeverErring(m, Compile(globs), p);
    }
    hide ErrsFirst, ClearUpTo, Errs, Compile, HasInclude, Matches, ExcludedBy, IncludedBy, MatchedBy;
    var rules, hasInclude := CompileAll(globs);
    ErrsWhen(m, rules, p);
    var i := 0;
    while i < |p|
      invariant 0 <= i <= |p| && (forall k :: 0 <= k < i ==> !PrunedAt(m, rules, p, k)) && ClearUpTo(m, rules, p, i)
    {
      ClearNext(m, rules, p, i);
      if p[i] == '/' {
        var v := LastVerdict(m, rules, p[..i], true);
        if v.None? {
          return None;
        }
        if v.value == Excluded {
          assert PrunedAt(m, rules, p, i);
          NoErrorPast(m, rules, p, i);
          return Some(false);
        }
      }
      i := i + 1;
    }
    var v := LastVerdict(m, rules, p, false);
    if v.None? {
      return None;
    }
    match v.value
    case Included => return Some(true);
    case Excluded => return Some(false);
    case Unmatched => return Some(!hasInclude);
  }

  lemma ClearNext(m: Matcher, rules: seq<Rule>, p: string, i: nat)
    requires i < |p|
    ensures ClearUpTo(m, rules, p, i + 1) <==>
              ClearUpTo(m, rules, p, i)
              && (p[i] == '/' ==> !PrunedAt(m, rules, p, i) && !ErrsFirst(m, rules, p[..i], true))
  {
    hide PrunedAt, ErrsFirst;
  }

  lemma ErrsWhen(m: Matcher, rules: seq<Rule>, p: string)
    ensures ClearUpTo(m, rules, p, 0)
    ensures forall k :: 0 <= k < |p| && p[k] == '/' && ClearUpTo(m, rules, p, k) && ErrsFirst(m, rules, p[..k], true)
              ==> Errs(m, rules, p)
    ensures ClearUpTo(m, rules, p, |p|) ==> (Errs(m, rules, p) <==> ErrsFirst(m, rules, p, false))
  {
    hide PrunedAt, ErrsFirst;
  }

  /** Once a directory is excluded nothing further is asked. */
  lemma NoErrorPast(m: Matcher, rules: seq<Rule>, p: string, i: nat)
    requires i < |p| && p[i] == '/' && ClearUpTo(m, rules, p, i) && PrunedAt(m, rules, p, i)
    requires !ErrsFirst(m, rules, p[..i], true)
    ensures !Errs(m, rules, p)
  {
    hide PrunedAt, ErrsFirst;
  }

  lemma NeverErring(m: Matcher, rules: seq<Rule>, p: string)
    requires NeverErrs(m)
    ensures !Errs(m, rules, p)
  {
    forall target, isDir ensures !ErrsFirst(m, rules, target, isDir) {
      forall r | r in rules ensures Asked(m, r, target).Some? {
        assert m(r.pattern, if r.basename then Base(target) else target).Some?;
      }
    }
    hide ErrsFirst;
  }

  // ---------------------------------------------------------------------------
  // What one glob means
  // ---------------------------------------------------------------------------

  /** A glob read off: "!" before an exclusion, "/" after one for directories alone, and a trailing slash and two
      stars made to match only below the directory they follow; a pattern with no slash is for basenames. */
  lemma CompiledIs(g: string) returns (body: string)
    ensures var r := CompileRule(g);
            && g == (if r.negated then "!" else "") + body + (if r.dirOnly then "/" else "")
            && (r.negated <==> g != "" && g[0] == '!')
            && (r.dirOnly <==> |g| > (if r.negated then 1 else 0) && g[|g| - 1] == '/')
            && r.pattern == body + (if EndsInAll(body) then "/*" else "")
            && (r.basename <==> '/' !in body)
  {
    var bare;
    bare, body := PiecesOf(g);
    hide CompileRule, EndsInAll;
    var r := CompileRule(g);
    assert g == (if r.negated then "!" else "") + (body + if r.dirOnly then "/" else "");
  }

  lemma PiecesOf(g: string) returns (bare: string, body: string)
    ensures var r := CompileRule(g);
            && g == (if r.negated then "!" else "") + bare && bare == body + (if r.dirOnly then "/" else "")
            && (r.negated <==> g != "" && g[0] == '!') && (r.dirOnly <==> bare != "" && bare[|bare| - 1] == '/')
            && r.pattern == body + (if EndsInAll(body) then "/*" else "")
            && (r.basename <==> '/' !in body)
  {
    hide EndsInAll, HasSuffix;
    bare := if "!" <= g then g[1..] else g;
    BangOff(g);
    SlashEnds(bare);
    body := if HasSuffix(bare, "/") then bare[..|bare| - 1] else bare;
    EndsIn(body);
    SlashIn(body);
    assert body + "" == body;
  }

  lemma BangOff(g: string)
    ensures "!" <= g <==> g != "" && g[0] == '!'
    ensures g == if "!" <= g then "!" + g[1..] else "" + g
  {
  }

  lemma EndsIn(s: string)
    ensures EndsInAll(s) <==> HasSuffix(s, "/**")
  {
  }

  lemma SlashEnds(s: string)
    ensures HasSuffix(s, "/") <==> s != "" && s[|s| - 1] == '/'
    ensures HasSuffix(s, "/") ==> s == s[..|s| - 1] + "/"
  {
  }

  lemma SlashIn(body: string)
    ensures '/' in body + (if EndsInAll(body) then "/*" else "") <==> '/' in body
  {
    if EndsInAll(body) {
      assert body[|body| - 3] in body;
    }
  }

  ghost predicate EndsInAll(s: string) {
    |s| >= 3 && s[|s| - 3] == '/' && s[|s| - 2] == '*' && s[|s| - 1] == '*'
  }

  ghost predicate AllSlashes(s: string) { forall c :: c in s ==> c == '/' }

  /** The base name: what follows the last slash, slashes at the very end left out. */
  lemma {:induction false} BaseIs(dir: string, name: string, slashes: string)
    requires dir == "" || dir[|dir| - 1] == '/'
    requires name != "" && '/' !in name && AllSlashes(slashes)
    ensures Base(dir + name + slashes) == name
  {
    UnslashedIs(dir + name, slashes);
    LastElementIs(dir, name);
  }

  lemma {:induction false} UnslashedIs(s: string, slashes: string)
    requires s != "" && s[|s| - 1] != '/' && AllSlashes(slashes)
    ensures Unslashed(s + slashes) == s
    decreases |slashes|
  {
    if slashes == "" {
      assert s + slashes == s;
    } else {
      var n := |slashes| - 1;
      assert forall c :: c in slashes[..n] ==> c in slashes;
      UnslashedIs(s, slashes[..n]);
      assert (s + slashes)[..|s + slashes| - 1] == s + slashes[..n] && slashes[n] in slashes;
    }
  }

  lemma {:induction false} LastElementIs(dir: string, name: string)
    requires dir == "" || dir[|dir| - 1] == '/'
    requires '/' !in name
    ensures LastElement(dir + name) == name
    decreases |name|
  {
    if name == "" {
      assert dir + name == dir;
    } else {
      var n := |name| - 1;
      LastElementIs(dir, name[..n]);
      assert (dir + name)[..|dir + name| - 1] == dir + name[..n] && name[n] in name;
    }
  }

  /** A single include selects a path exactly when it is not for directories alone and its pattern matches: the
      base name at any depth for one without a slash, and the whole path otherwise. */
  lemma OneGlobSelects(m: Matcher, g: string, dir: string, name: string)
    requires g != "" && g[0] != '!' && g[|g| - 1] != '/'
    requires (dir == "" || dir[|dir| - 1] == '/') && name != "" && '/' !in name
    ensures var pattern := if EndsInAll(g) then g + "/*" else g;
            Selected(m, [g], dir + name) <==> m(pattern, if '/' in g then dir + name else name) == Some(true)
  {
    var p, r := dir + name, CompileRule(g);
    var body := CompiledIs(g);
    BaseIs(dir, name, "");
    assert p + "" == p && body == g;
    assert Compile([g]) == [r];
    hide CompileRule, Compile, Base, EndsInAll;
    OneRuleSelects(m, g, r, p);
  }

  lemma OneRuleSelects(m: Matcher, g: string, r: Rule, p: string)
    requires Compile([g]) == [r] && !r.negated
    ensures Selected(m, [g], p) <==> Matches(m, r, p, false)
  {
    hide CompileRule, Compile, Matches;
    var rules := [r];
    assert rules[0] == r;
    assert Matches(m, r, p, false) <==> LastMatch(m, rules, p, false, 0);
    forall i | 0 <= i < |p| ensures !PrunedAt(m, rules, p, i) {
    }
  }

  /** An excluded directory rejects every path below it, whatever later globs say of the path. */
  lemma ExcludedDirectoryPrunes(m: Matcher, globs: seq<string>, dir: string, rest: string)
    requires globs != [] && ExcludedBy(m, Compile(globs), dir, true)
    ensures !Selected(m, globs, dir + "/" + rest)
  {
    var p := dir + "/" + rest;
    assert p[..|dir|] == dir;
    assert PrunedAt(m, Compile(globs), p, |dir|);
  }

  /** How a target's verdict changes with one more rule: a match decides it, anything else leaves it. */
  lemma OneMoreRule(m: Matcher, rules: seq<Rule>, r: Rule, target: string, isDir: bool)
    ensures var more := rules + [r]; var hit := Matches(m, r, target, isDir);
      && (ExcludedBy(m, more, target, isDir) <==> if hit then r.negated else ExcludedBy(m, rules, target, isDir))
      && (IncludedBy(m, more, target, isDir) <==> if hit then !r.negated else IncludedBy(m, rules, target, isDir))
      && (MatchedBy(m, more, target, isDir) <==> hit || MatchedBy(m, rules, target, isDir))
  {
    var more := rules + [r];
    var n := |rules|;
    if Matches(m, r, target, isDir) {
      assert LastMatch(m, more, target, isDir, n);
    } else {
      forall i | 0 <= i < n ensures LastMatch(m, more, target, isDir, i) == LastMatch(m, rules, target, isDir, i) {
        assert more[i] == rules[i];
        assert forall j :: i < j < n ==> more[j] == rules[j];
      }
    }
    assert forall i :: 0 <= i < n ==> more[i] == rules[i];
  }

  lemma CompileMore(globs: seq<string>, g: string)
    ensures Compile(globs + [g]) == Compile(globs) + [CompileRule(g)]
  {
  }

  /** Appending an exclusion never selects a path that was not selected. */
  lemma ExclusionNeverSelects(m: Matcher, globs: seq<string>, g: string, p: string)
    requires "!" <= g && Selected(m, globs + [g], p)
    ensures Selected(m, globs, p)
  {
    var rules, r := Compile(globs), CompileRule(g);
    CompileMore(globs, g);
    OneMoreRule(m, rules, r, p, false);
    forall i | 0 <= i < |p| && p[i] == '/' ensures !PrunedAt(m, rules, p, i) {
      OneMoreRule(m, rules, r, p[..i], true);
      assert !PrunedAt(m, rules + [r], p, i);
    }
    assert HasInclude(rules) ==> HasInclude(rules + [r]) by {
      if i :| 0 <= i < |rules| && !rules[i].negated {
        assert !(rules + [r])[i].negated;
      }
    }
  }

  /** Appending an include to a list that already has one never loses a path. */
  lemma IncludeNeverLoses(m: Matcher, globs: seq<string>, g: string, p: string)
    requires !("!" <= g) && HasInclude(Compile(globs)) && Selected(m, globs, p)
    ensures Selected(m, globs + [g], p)
  {
    var rules, r := Compile(globs), CompileRule(g);
    CompileMore(globs, g);
    OneMoreRule(m, rules, r, p, false);
    forall i | 0 <= i < |p| && p[i] == '/' ensures !PrunedAt(m, rules + [r], p, i) {
      OneMoreRule(m, rules, r, p[..i], true);
      assert !PrunedAt(m, rules, p, i);
    }
  }

  /** The first include turns a list into a whitelist: of what the exclusions left, exactly the paths it
      matches stay selected. */
  lemma FirstIncludeIsAWhitelist(m: Matcher, globs: seq<string>, g: string, p: string)
    requires !("!" <= g) && !HasInclude(Compile(globs)) && Selected(m, globs, p)
    ensures Selected(m, globs + [g], p) <==> Matches(m, CompileRule(g), p, false)
  {
    var rules, r := Compile(globs), CompileRule(g);
    CompileMore(globs, g);
    OneMoreRule(m, rules, r, p, false);
    assert !(rules + [r])[|rules|].negated;
    forall i | 0 <= i < |p| && p[i] == '/' ensures !PrunedAt(m, rules + [r], p, i) {
      OneMoreRule(m, rules, r, p[..i], true);
      assert globs == [] ==> !ExcludedBy(m, rules, p[..i], true);
      assert globs != [] ==> !PrunedAt(m, rules, p, i);
    }
    assert !IncludedBy(m, rules, p, false);
  }

  predicate AnyInclude(globs: seq<string>) {
    exists i :: 0 <= i < |globs| && !("!" <= globs[i])
  }

  predicate CarriedByAll(globs: seq<string>, anchorOf: string -> string, dir: string) {
    forall i :: 0 <= i < |globs| && !("!" <= globs[i]) ==> anchorOf(globs[i]) == dir
  }

  /** SharedGlobAnchor: the anchor every include carries, and "" only when no include is there to carry
      one or no one anchor is carried by all. */
  method SharedGlobAnchor(globs: seq<string>, anchorOf: string -> string) returns (anchor: string)
    ensures anchor != "" ==> AnyInclude(globs) && CarriedByAll(globs, anchorOf, anchor)
    ensures anchor == "" ==> !AnyInclude(globs) || forall dir :: dir != "" ==> !CarriedByAll(globs, anchorOf, dir)
  {
    anchor := "";
    var i := 0;
    ghost var carrier := 0;
    while i < |globs|
      invariant 0 <= i <= |globs|
      invariant forall k :: 0 <= k < i && !("!" <= globs[k]) ==> anchorOf(globs[k]) == anchor && anchor != ""
      invariant anchor != "" ==> carrier < i && !("!" <= globs[carrier])
    {
      if !("!" <= globs[i]) {
        var dir := anchorOf(globs[i]);
        if dir == "" || (anchor != "" && dir != anchor) {
          return "";
        }
        anchor, carrier := dir, i;
      }
      i := i + 1;
    }
  }
}
