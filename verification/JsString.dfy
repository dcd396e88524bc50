/** JavaScript strings as sequences of UTF-16 code units, and the string functions that topics are built with. */
module JsString {
  type CodeUnit = c: nat | c < 0x10000

  type JsString = seq<CodeUnit>

  const NUL: CodeUnit := 0x0000
  const HASH: CodeUnit := 0x0023
  const PLUS: CodeUnit := 0x002B
  const SLASH: CodeUnit := 0x002F

  /** An ASCII literal. */
  function Js(s: string): (r: JsString)
    requires forall i :: 0 <= i < |s| ==> s[i] < 128 as char
    ensures |r| == |s| && forall i :: 0 <= i < |r| ==> r[i] == s[i] as int
  {
    seq(|s|, i requires 0 <= i < |s| => s[i] as int)
  }

  predicate OccursAt(s: JsString, p: JsString, i: nat) {
    i + |p| <= |s| && s[i..i + |p|] == p
  }

  /** `s.search(p) !== -1` for a pattern without special characters. */
  predicate Contains(s: JsString, p: JsString) {
    exists i :: 0 <= i <= |s| && OccursAt(s, p, i)
  }

  predicate NoSlash(s: JsString) {
    SLASH !in s
  }

  predicate NoSlashes(levels: seq<JsString>) {
    forall i :: 0 <= i < |levels| ==> NoSlash(levels[i])
  }

  /** `s.split("/")`. */
  function Split(s: JsString): (levels: seq<JsString>)
    ensures levels != []
  {
    if s == [] then [[]]
    else
      var rest := Split(s[1..]);
      if s[0] == SLASH then [[]] + rest else [[s[0]] + rest[0]] + rest[1..]
  }

  /** `levels.join("/")`. */
  function Join(levels: seq<JsString>): JsString {
    if levels == [] then []
    else if |levels| == 1 then levels[0]
    else levels[0] + [SLASH] + Join(levels[1..])
  }

  lemma {:induction false} SplitNoSlashes(s: JsString)
    ensures NoSlashes(Split(s))
  {
    if s != [] {
      SplitNoSlashes(s[1..]);
    }
  }

  lemma {:induction false} SplitLevel(level: JsString)
    requires NoSlash(level)
    ensures Split(level) == [level]
  {
    if level != [] {
      SplitLevel(level[1..]);
      assert [level[0]] + level[1..] == level;
    }
  }

  lemma {:induction false} SplitFirst(level: JsString, rest: JsString)
    requires NoSlash(level)
    ensures Split(level + [SLASH] + rest) == [level] + Split(rest)
  {
    var s := level + [SLASH] + rest;
    if level == [] {
      assert s[1..] == rest;
    } else {
      assert s[1..] == level[1..] + [SLASH] + rest;
      SplitFirst(level[1..], rest);
      assert [level[0]] + level[1..] == level;
    }
  }

  /** Joined levels split into the same levels. */
  lemma {:induction false} SplitJoin(levels: seq<JsString>)
    requires levels != [] && NoSlashes(levels)
    ensures Split(Join(levels)) == levels
  {
    if |levels| == 1 {
      SplitLevel(levels[0]);
    } else {
      SplitJoin(levels[1..]);
      SplitFirst(levels[0], Join(levels[1..]));
    }
  }

  lemma JoinHead(c: CodeUnit, levels: seq<JsString>)
    requires levels != []
    ensures Join([[c] + levels[0]] + levels[1..]) == [c] + Join(levels)
  {
    var longer := [[c] + levels[0]] + levels[1..];
    if |levels| > 1 {
      assert longer[1..] == levels[1..];
    }
  }

  /** The split parts join to the same string. */
  lemma {:induction false} JoinSplit(s: JsString)
    ensures Join(Split(s)) == s
  {
    if s != [] {
      var rest := Split(s[1..]);
      JoinSplit(s[1..]);
      assert [s[0]] + s[1..] == s;
      if s[0] == SLASH {
        assert ([[]] + rest)[1..] == rest;
      } else {
        JoinHead(s[0], rest);
      }
    }
  }
}
