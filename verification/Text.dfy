/** Characters in text and decimal numbers, as strings.IndexByte and strconv have them. */
module Text {
  /** The offset of the first c, or the length when there is none. */
  function IndexOf(s: string, c: char): (i: nat)
    ensures i <= |s| && forall m :: 0 <= m < i ==> s[m] != c
    ensures i < |s| ==> s[i] == c
  {
    if s == "" || s[0] == c then 0 else IndexOf(s[1..], c) + 1
  }

  lemma IndexIs(s: string, c: char, i: nat)
    requires i <= |s| && (forall m :: 0 <= m < i ==> s[m] != c) && (i < |s| ==> s[i] == c)
    ensures IndexOf(s, c) == i
  {
  }

  /** The first c after a prefix without one. */
  lemma IndexPast(a: string, c: char, b: string)
    requires c !in a
    ensures IndexOf(a + [c] + b, c) == |a|
    ensures (a + [c] + b)[..|a|] == a && (a + [c] + b)[|a| + 1..] == b
  {
    IndexIs(a + [c] + b, c, |a|);
  }

  lemma IndexNone(a: string, c: char)
    requires c !in a
    ensures IndexOf(a, c) == |a|
  {
    IndexIs(a, c, |a|);
  }

  predicate Digit(c: char) { '0' <= c <= '9' }

  /** One or more ASCII digits. */
  predicate Digits(s: string) { s != "" && forall c :: c in s ==> Digit(c) }

  function Value(s: string): nat
    requires forall c :: c in s ==> Digit(c)
  {
    if s == "" then 0
    else
      assert Digit(s[|s| - 1]);
      Value(s[..|s| - 1]) * 10 + (s[|s| - 1] as int - '0' as int)
  }

  function Itoa(n: nat): (s: string)
    ensures Digits(s)
  {
    var last := [('0' as int + n % 10) as char];
    if n < 10 then last else Itoa(n / 10) + last
  }

  lemma {:induction false} ValueOfItoa(n: nat)
    ensures Value(Itoa(n)) == n
  {
    var s := Itoa(n);
    if n < 10 {
      assert s[..0] == "" && Value(s[..0]) == 0;
    } else {
      ValueOfItoa(n / 10);
      assert s[..|s| - 1] == Itoa(n / 10);
    }
  }

  /** unicode.IsSpace. */
  predicate Space(c: char) {
    || c in " \t\n\r\U{0B}\U{0C}\U{85}\U{A0}\U{1680}\U{2028}\U{2029}\U{202F}\U{205F}\U{3000}"
    || '\U{2000}' <= c <= '\U{200A}'
  }

  /** The code points Unicode gives the White_Space property. */
  lemma SpaceIs(c: char)
    ensures var u := c as int;
            Space(c) <==>
              || 9 <= u <= 13 || u == 32 || u == 0x85 || u == 0xA0 || u == 0x1680 || 0x2000 <= u <= 0x200A
              || u == 0x2028 || u == 0x2029 || u == 0x202F || u == 0x205F || u == 0x3000
  {
  }

  /** strings.TrimSpace. */
  function TrimSpace(s: string): (t: string)
    decreases |s|
  {
    if s != "" && Space(s[0]) then TrimSpace(s[1..])
    else if s != "" && Space(s[|s| - 1]) then TrimSpace(s[..|s| - 1])
    else s
  }

  /** What TrimSpace cuts off either end is white space, and what it leaves begins and ends with none. */
  lemma {:induction false} TrimSpaceCuts(s: string) returns (pre: string, post: string)
    ensures s == pre + TrimSpace(s) + post
    ensures forall c :: c in pre || c in post ==> Space(c)
    ensures var t := TrimSpace(s); t != "" ==> !Space(t[0]) && !Space(t[|t| - 1])
    decreases |s|
  {
    hide Space;
    pre, post := "", "";
    if s != "" && Space(s[0]) {
      pre, post := TrimSpaceCuts(s[1..]);
      assert s == [s[0]] + s[1..];
      pre := [s[0]] + pre;
    } else if s != "" && Space(s[|s| - 1]) {
      pre, post := TrimSpaceCuts(s[..|s| - 1]);
      assert s == s[..|s| - 1] + [s[|s| - 1]];
      post := post + [s[|s| - 1]];
    }
  }
}
