/**
 MQTT topics printed and parsed with a configurable topic format. `MqttTopics` holds the array of levels that
 all printing overwrites; `Print` is the topic it is meant to print.
 */
module TopicFormat {
  import opened Wrappers
  import opened JsString
  import opened MqttUtils

  /** A property of a pattern or of a parsed topic; None is JavaScript's undefined. */
  type Key = Option<JsString>

  /** manufacturer, serialNumber, topic. */
  type Path = p: seq<Key> | |p| == 3 witness [None, None, None]

  const PLACEHOLDERS: seq<JsString> :=
    [Js("%interfaceName%"), Js("%majorVersion%"), Js("%manufacturer%"), Js("%serialNumber%"), Js("%topic%")]

  const WILDCARD: JsString := [PLUS]

  datatype Format = Format(levels: seq<JsString>, indices: seq<int>, interfaceName: JsString, majorVersion: JsString)

  datatype FormatError = Misplaced(placeholder: nat) | TopicMissing

  /* Compilation */

  function IndexOf<T(==)>(s: seq<T>, x: T): (i: int)
    ensures -1 <= i < |s|
    ensures i >= 0 ==> s[i] == x
    ensures forall j :: 0 <= j < (if i >= 0 then i else |s|) ==> s[j] != x
  {
    if s == [] then -1
    else if s[0] == x then 0
    else
      var i := IndexOf(s[1..], x);
      if i >= 0 then i + 1 else -1
  }

  function Indices(levels: seq<JsString>): (indices: seq<int>)
    ensures |indices| == 5 && forall k :: 0 <= k < 5 ==> indices[k] == IndexOf(levels, PLACEHOLDERS[k])
  {
    seq(5, k requires 0 <= k < 5 => IndexOf(levels, PLACEHOLDERS[k]))
  }

  /** A level other than the given one contains the placeholder. */
  predicate Elsewhere(levels: seq<JsString>, p: JsString, index: int) {
    exists li :: 0 <= li < |levels| && Contains(levels[li], p) && li != index
  }

  /** The first placeholder from `i` on that is not a complete level or occurs more than once, or 5. */
  function FirstMisplaced(levels: seq<JsString>, i: nat): (k: nat)
    requires i <= 5
    ensures i <= k <= 5
    ensures forall j :: i <= j < k ==> !Elsewhere(levels, PLACEHOLDERS[j], IndexOf(levels, PLACEHOLDERS[j]))
    ensures k < 5 ==> Elsewhere(levels, PLACEHOLDERS[k], IndexOf(levels, PLACEHOLDERS[k]))
    decreases 5 - i
  {
    if i == 5 || Elsewhere(levels, PLACEHOLDERS[i], IndexOf(levels, PLACEHOLDERS[i])) then i
    else FirstMisplaced(levels, i + 1)
  }

  /** "v" and the part before the first dot; nothing but "v" if there is no dot. */
  function MajorVersion(protocolVersion: JsString): JsString {
    var dot := IndexOf(protocolVersion, 0x002E);
    Js("v") + if dot >= 0 then protocolVersion[..dot] else []
  }

  function Compile(topicFormat: JsString, interfaceName: JsString, protocolVersion: JsString): Result<Format, FormatError> {
    var levels := Split(topicFormat);
    var misplaced := FirstMisplaced(levels, 0);
    if misplaced < 5 then Err(Misplaced(misplaced))
    else if IndexOf(levels, PLACEHOLDERS[4]) == -1 then Err(TopicMissing)
    else Ok(Format(levels, Indices(levels), interfaceName, MajorVersion(protocolVersion)))
  }

  /** Every placeholder occurs at most once, and then as a complete level; %topic% occurs. */
  ghost predicate Legal(levels: seq<JsString>) {
    && (forall k, li :: 0 <= k < 5 && 0 <= li < |levels| && Contains(levels[li], PLACEHOLDERS[k])
                        ==> levels[li] == PLACEHOLDERS[k])
    && (forall k, i, j :: 0 <= k < 5 && 0 <= i < j < |levels| ==>
          !(levels[i] == PLACEHOLDERS[k] && levels[j] == PLACEHOLDERS[k]))
    && PLACEHOLDERS[4] in levels
  }

  /** What the closures rely on. */
  ghost predicate Compiled(f: Format) {
    && f.levels != [] && NoSlashes(f.levels)
    && |f.indices| == 5 && f.indices[4] >= 0
    && (forall k :: 0 <= k < 5 ==> -1 <= f.indices[k] < |f.levels|)
    && (forall j, k :: 0 <= j < k < 5 && f.indices[j] >= 0 ==> f.indices[j] != f.indices[k])
    && NoSlash(f.interfaceName) && NoSlash(f.majorVersion)
  }

  lemma PlaceholdersDiffer(j: nat, k: nat)
    requires j < k < 5
    ensures PLACEHOLDERS[j] != PLACEHOLDERS[k]
  {
    var p, q := PLACEHOLDERS[j], PLACEHOLDERS[k];
    assert |p| != |q| || p[1] != q[1] || p[3] != q[3];
  }

  lemma ContainsItself(s: JsString)
    ensures Contains(s, s)
  {
    assert OccursAt(s, s, 0);
  }

  /** One placeholder is well placed exactly if all its occurrences are one complete level. */
  lemma NotElsewhere(levels: seq<JsString>, p: JsString)
    ensures !Elsewhere(levels, p, IndexOf(levels, p)) <==>
            && (forall li :: 0 <= li < |levels| && Contains(levels[li], p) ==> levels[li] == p)
            && (forall i, j :: 0 <= i < j < |levels| ==> !(levels[i] == p && levels[j] == p))
  {
    ContainsItself(p);
    var index := IndexOf(levels, p);
    if Elsewhere(levels, p, index) {
      var li :| 0 <= li < |levels| && Contains(levels[li], p) && li != index;
      if levels[li] == p {
        assert 0 <= index < li && levels[index] == p;
      }
    }
  }

  /** Compilation fails exactly on the formats that break the rules. */
  lemma CompileAcceptsExactlyLegal(topicFormat: JsString, interfaceName: JsString, protocolVersion: JsString)
    ensures Compile(topicFormat, interfaceName, protocolVersion).Ok? <==> Legal(Split(topicFormat))
  {
    var levels := Split(topicFormat);
    forall k | 0 <= k < 5 ensures
      !Elsewhere(levels, PLACEHOLDERS[k], IndexOf(levels, PLACEHOLDERS[k])) <==>
      && (forall li :: 0 <= li < |levels| && Contains(levels[li], PLACEHOLDERS[k]) ==> levels[li] == PLACEHOLDERS[k])
      && (forall i, j :: 0 <= i < j < |levels| ==> !(levels[i] == PLACEHOLDERS[k] && levels[j] == PLACEHOLDERS[k]))
    {
      NotElsewhere(levels, PLACEHOLDERS[k]);
    }
    var misplaced := FirstMisplaced(levels, 0);
    if misplaced < 5 {
      assert !Legal(levels);
    } else {
      assert (IndexOf(levels, PLACEHOLDERS[4]) == -1) == (PLACEHOLDERS[4] !in levels);
    }
  }

  lemma CompileYieldsCompiled(topicFormat: JsString, interfaceName: JsString, protocolVersion: JsString)
    requires NoSlash(interfaceName) && NoSlash(protocolVersion)
    ensures var r := Compile(topicFormat, interfaceName, protocolVersion); r.Ok? ==> Compiled(r.value)
  {
    SplitNoSlashes(topicFormat);
    var levels := Split(topicFormat);
    var indices := Indices(levels);
    forall j, k | 0 <= j < k < 5 && indices[j] >= 0 ensures indices[j] != indices[k] {
      PlaceholdersDiffer(j, k);
    }
  }

  /* Printing and parsing */

  /** The level at `j` once all placeholders are replaced. */
  function LevelAt(f: Format, m: JsString, s: JsString, t: JsString, j: nat): JsString
    requires |f.indices| == 5 && j < |f.levels|
  {
    if j == f.indices[0] then f.interfaceName
    else if j == f.indices[1] then f.majorVersion
    else if j == f.indices[2] then m
    else if j == f.indices[3] then s
    else if j == f.indices[4] then t
    else f.levels[j]
  }

  function Filled(f: Format, m: JsString, s: JsString, t: JsString): (r: seq<JsString>)
    requires |f.indices| == 5
    ensures |r| == |f.levels| && forall j :: 0 <= j < |r| ==> r[j] == LevelAt(f, m, s, t, j)
  {
    seq(|f.levels|, j requires 0 <= j < |f.levels| => LevelAt(f, m, s, t, j))
  }

  function Print(f: Format, m: JsString, s: JsString, t: JsString): JsString
    requires |f.indices| == 5
  {
    Join(Filled(f, m, s, t))
  }

  function Element(levels: seq<JsString>, i: int): Key {
    if 0 <= i < |levels| then Some(levels[i]) else None
  }

  function Parse(f: Format, mqttTopic: JsString): Path
    requires |f.indices| == 5
  {
    var levels := Split(mqttTopic);
    [Element(levels, f.indices[2]), Element(levels, f.indices[3]), Element(levels, f.indices[4])]
  }

  /** The path that `find` looks up: what the topic does not tell is taken from the object header. */
  function Resolve(f: Format, mqttTopic: JsString, manufacturer: Key, serialNumber: Key): Path
    requires |f.indices| == 5
  {
    var path := Parse(f, mqttTopic);
    [if path[0] == None then manufacturer else path[0], if path[1] == None then serialNumber else path[1], path[2]]
  }

  /** All placeholders that tell the subject are part of the format. */
  predicate Full(f: Format)
    requires |f.indices| == 5
  {
    f.indices[2] >= 0 && f.indices[3] >= 0
  }

  lemma FilledNoSlashes(f: Format, m: JsString, s: JsString, t: JsString)
    requires Compiled(f) && NoSlash(m) && NoSlash(s) && NoSlash(t)
    ensures NoSlashes(Filled(f, m, s, t)) && Split(Print(f, m, s, t)) == Filled(f, m, s, t)
  {
    SplitJoin(Filled(f, m, s, t));
  }

  /** What becomes of one level of the format. */
  function Replaced(level: JsString, interfaceName: JsString, majorVersion: JsString, m: JsString, s: JsString, t: JsString)
    : JsString
  {
    if level == Js("%interfaceName%") then interfaceName
    else if level == Js("%majorVersion%") then majorVersion
    else if level == Js("%manufacturer%") then m
    else if level == Js("%serialNumber%") then s
    else if level == Js("%topic%") then t
    else level
  }

  /** The placeholder at `j`, if there is one, is the one that its index names. */
  lemma LevelIsReplaced(f: Format, levels: seq<JsString>, m: JsString, s: JsString, t: JsString, j: nat)
    requires f == Format(levels, Indices(levels), f.interfaceName, f.majorVersion) && Legal(levels) && j < |levels|
    ensures LevelAt(f, m, s, t, j) == Replaced(levels[j], f.interfaceName, f.majorVersion, m, s, t)
  {
    forall k | 0 <= k < 5 ensures j == f.indices[k] <==> levels[j] == PLACEHOLDERS[k] {
      var i := IndexOf(levels, PLACEHOLDERS[k]);
      assert levels[j] == PLACEHOLDERS[k] ==> i == j;
    }
  }

  /** A topic has the levels of the format string, with all placeholders replaced. */
  lemma PrintsReplaced(topicFormat: JsString, interfaceName: JsString, protocolVersion: JsString,
                       m: JsString, s: JsString, t: JsString)
    requires NoSlash(interfaceName) && NoSlash(protocolVersion) && NoSlash(m) && NoSlash(s) && NoSlash(t)
    requires Compile(topicFormat, interfaceName, protocolVersion).Ok?
    ensures var f := Compile(topicFormat, interfaceName, protocolVersion).value;
            var levels := Split(topicFormat);
            |f.indices| == 5 &&
            Split(Print(f, m, s, t)) ==
            seq(|levels|, j requires 0 <= j < |levels| =>
              Replaced(levels[j], interfaceName, MajorVersion(protocolVersion), m, s, t))
  {
    hide Split, MajorVersion, Legal, LevelAt, Replaced, FirstMisplaced, Join;
    var f := Compile(topicFormat, interfaceName, protocolVersion).value;
    var levels := Split(topicFormat);
    CompileYieldsCompiled(topicFormat, interfaceName, protocolVersion);
    CompileAcceptsExactlyLegal(topicFormat, interfaceName, protocolVersion);
    FilledNoSlashes(f, m, s, t);
    forall j | 0 <= j < |levels|
      ensures LevelAt(f, m, s, t, j) == Replaced(levels[j], interfaceName, MajorVersion(protocolVersion), m, s, t)
    {
      LevelIsReplaced(f, levels, m, s, t, j);
    }
  }

  /** The major version is what stands before the first dot. */
  lemma MajorVersionOf(major: JsString, rest: JsString)
    requires 0x2E !in major
    ensures MajorVersion(major + [0x2E] + rest) == Js("v") + major
  {
    var version := major + [0x2E] + rest;
    assert version[|major|] == 0x2E;
    assert IndexOf(version, 0x2E) == |major|;
    assert version[..|major|] == major;
  }

  /** Parsing a printed topic returns what was printed; omitted placeholders are undefined. */
  lemma ParsePrinted(f: Format, m: JsString, s: JsString, t: JsString)
    requires Compiled(f) && NoSlash(m) && NoSlash(s) && NoSlash(t)
    ensures Parse(f, Print(f, m, s, t)) ==
            [if f.indices[2] >= 0 then Some(m) else None, if f.indices[3] >= 0 then Some(s) else None, Some(t)]
  {
    FilledNoSlashes(f, m, s, t);
  }

  /** A receiver with the same format resolves a published message to its topic and subject. */
  lemma ResolvePublished(f: Format, m: JsString, s: JsString, t: JsString)
    requires Compiled(f) && NoSlash(m) && NoSlash(s) && NoSlash(t)
    ensures Resolve(f, Print(f, m, s, t), Some(m), Some(s)) == [Some(m), Some(s), Some(t)]
  {
    ParsePrinted(f, m, s, t);
  }

  /* Patterns and MQTT filters */

  function OrWildcard(k: Key): JsString {
    if k.Some? then k.value else WILDCARD
  }

  /** The MQTT topic filter of a subscription. */
  function Filter(f: Format, p: Path): JsString
    requires |f.indices| == 5
  {
    Print(f, OrWildcard(p[0]), OrWildcard(p[1]), OrWildcard(p[2]))
  }

  /** Properties are single levels and none is the wildcard itself. */
  predicate ValidPath(p: Path) {
    forall i :: 0 <= i < 3 && p[i].Some? ==> NoSlash(p[i].value) && p[i].value != WILDCARD
  }

  /** Each of the first `n` properties is undefined or equal to the one looked up. */
  predicate AppliesTo(p: Path, path: Path, n: nat)
    requires n <= 3
  {
    forall i :: 0 <= i < n ==> p[i] == None || p[i] == path[i]
  }

  /** A subscription applies. */
  predicate Applies(p: Path, path: Path) {
    AppliesTo(p, path, 3)
  }

  /** Section 4.7.1.3 of MQTT 3.1.1: a "+" level matches any one level. */
  predicate LevelMatches(filter: JsString, name: JsString) {
    filter == WILDCARD || filter == name
  }

  predicate Matches(filter: JsString, name: JsString) {
    var fs, ns := Split(filter), Split(name);
    |fs| == |ns| && forall i :: 0 <= i < |fs| ==> LevelMatches(fs[i], ns[i])
  }

  lemma FilterLevels(f: Format, p: Path)
    requires Compiled(f) && ValidPath(p)
    ensures Split(Filter(f, p)) == Filled(f, OrWildcard(p[0]), OrWildcard(p[1]), OrWildcard(p[2]))
  {
    FilledNoSlashes(f, OrWildcard(p[0]), OrWildcard(p[1]), OrWildcard(p[2]));
  }

  /** The index of a property's placeholder. */
  function Place(f: Format, i: nat): int
    requires |f.indices| == 5 && i < 3
  {
    f.indices[2 + i]
  }

  lemma FilterLevelAt(f: Format, p: Path, i: nat)
    requires Compiled(f) && ValidPath(p) && i < 3 && Place(f, i) >= 0
    ensures Place(f, i) < |Split(Filter(f, p))| && Split(Filter(f, p))[Place(f, i)] == OrWildcard(p[i])
  {
    hide Filter, Split, OrWildcard, Legal;
    FilterLevels(f, p);
    assert forall j :: 0 <= j < 2 + i ==> f.indices[j] != f.indices[2 + i];
  }

  /** Filters differ at most at the places of the subject and of the topic. */
  lemma FilterLiteralAt(f: Format, p: Path, q: Path, j: nat)
    requires Compiled(f) && ValidPath(p) && ValidPath(q) && j < |f.levels|
    requires j != f.indices[2] && j != f.indices[3] && j != f.indices[4]
    ensures j < |Split(Filter(f, p))| == |Split(Filter(f, q))| && Split(Filter(f, p))[j] == Split(Filter(f, q))[j]
  {
    FilterLevels(f, p);
    FilterLevels(f, q);
  }

  /** A level that is no place of a property is the same in all filters. */
  lemma LiteralMatches(f: Format, p: Path, q: Path, name: JsString, j: nat)
    requires Compiled(f) && ValidPath(p) && ValidPath(q) && Matches(Filter(f, q), name)
    requires j < |f.levels| && forall i :: 0 <= i < 3 ==> j != Place(f, i)
    ensures j < |Split(name)| && j < |Split(Filter(f, p))| && LevelMatches(Split(Filter(f, p))[j], Split(name)[j])
  {
    assert j != Place(f, 0) && j != Place(f, 1) && j != Place(f, 2);
    FilterLiteralAt(f, p, q, j);
    assert LevelMatches(Split(Filter(f, q))[j], Split(name)[j]);
  }

  lemma PropertyMatches(f: Format, p: Path, name: JsString, manufacturer: Key, serialNumber: Key, i: nat)
    requires Compiled(f) && ValidPath(p) && i < 3 && 0 <= Place(f, i) < |Split(name)|
    requires Applies(p, Resolve(f, name, manufacturer, serialNumber))
    ensures Place(f, i) < |Split(Filter(f, p))|
    ensures LevelMatches(Split(Filter(f, p))[Place(f, i)], Split(name)[Place(f, i)])
  {
    FilterLevelAt(f, p, i);
    assert Resolve(f, name, manufacturer, serialNumber)[i] == Some(Split(name)[Place(f, i)]);
  }

  /**
   A message that the broker delivered, since it matches some filter of this client (of subscription `q`), and
   that is found to apply to subscription `p` matches the filter of `p`.
   */
  lemma AppliesMatches(f: Format, p: Path, q: Path, name: JsString, manufacturer: Key, serialNumber: Key)
    requires Compiled(f) && ValidPath(p) && ValidPath(q) && Matches(Filter(f, q), name)
    requires Applies(p, Resolve(f, name, manufacturer, serialNumber))
    ensures Matches(Filter(f, p), name)
  {
    var fs, ns := Split(Filter(f, p)), Split(name);
    FilterLevels(f, p);
    FilterLevels(f, q);
    forall j | 0 <= j < |fs| ensures LevelMatches(fs[j], ns[j]) {
      if i: nat :| i < 3 && j == Place(f, i) {
        PropertyMatches(f, p, name, manufacturer, serialNumber, i);
      } else {
        LiteralMatches(f, p, q, name, j);
      }
    }
  }

  /** With all placeholders, a message that matches the filter of `p` is found to apply to `p`. */
  lemma MatchesApplies(f: Format, p: Path, name: JsString, manufacturer: Key, serialNumber: Key)
    requires Compiled(f) && Full(f) && ValidPath(p) && Matches(Filter(f, p), name)
    ensures Applies(p, Resolve(f, name, manufacturer, serialNumber))
  {
    var fs, ns := Split(Filter(f, p)), Split(name);
    var path := Resolve(f, name, manufacturer, serialNumber);
    forall i | 0 <= i < 3 ensures p[i] == None || p[i] == path[i] {
      assert Place(f, i) >= 0;
      FilterLevelAt(f, p, i);
      assert LevelMatches(fs[Place(f, i)], ns[Place(f, i)]);
      assert path[i] == Some(ns[Place(f, i)]);
    }
  }

  /** On delivered messages, lookup and the wildcard rule agree. */
  ghost predicate LookupIsMatching(f: Format)
    requires |f.indices| == 5
  {
    forall p: Path, q: Path, name, manufacturer, serialNumber ::
      ValidPath(p) && ValidPath(q) && Matches(Filter(f, q), name) ==>
        (Applies(p, Resolve(f, name, manufacturer, serialNumber)) <==> Matches(Filter(f, p), name))
  }

  ghost predicate FiltersInjective(f: Format)
    requires |f.indices| == 5
  {
    forall p: Path, q: Path :: ValidPath(p) && ValidPath(q) && Filter(f, p) == Filter(f, q) ==> p == q
  }

  /** The pattern with the given property only. */
  function Only(i: nat, v: JsString, topic: JsString): Path
    requires i < 2
  {
    if i == 0 then [Some(v), None, Some(topic)] else [None, Some(v), Some(topic)]
  }

  const ANY: Path := [None, None, Some(Js("t"))]

  /** A property without placeholder leaves no trace in the filter. */
  lemma OmittedLeavesNoTrace(f: Format, i: nat)
    requires Compiled(f) && i < 2 && Place(f, i) < 0
    ensures ValidPath(Only(i, Js("a"), Js("t"))) && ValidPath(ANY)
    ensures Filter(f, Only(i, Js("a"), Js("t"))) == Filter(f, ANY)
  {
    var p := Only(i, Js("a"), Js("t"));
    assert Js("a") == [0x61] && Js("t") == [0x74];
    assert Filled(f, OrWildcard(p[0]), OrWildcard(p[1]), OrWildcard(p[2])) ==
           Filled(f, OrWildcard(ANY[0]), OrWildcard(ANY[1]), OrWildcard(ANY[2]));
  }

  lemma FullInjective(f: Format, p: Path, q: Path)
    requires Compiled(f) && Full(f) && ValidPath(p) && ValidPath(q) && Filter(f, p) == Filter(f, q)
    ensures p == q
  {
    forall i | 0 <= i < 3 ensures p[i] == q[i] {
      assert Place(f, i) >= 0;
      FilterLevelAt(f, p, i);
      FilterLevelAt(f, q, i);
    }
  }

  /** Different subscriptions have different filters exactly if the format has all placeholders. */
  lemma FiltersInjectiveExactly(f: Format)
    requires Compiled(f)
    ensures FiltersInjective(f) <==> Full(f)
  {
    if Full(f) {
      forall p: Path, q: Path | ValidPath(p) && ValidPath(q) && Filter(f, p) == Filter(f, q) ensures p == q {
        FullInjective(f, p, q);
      }
    } else {
      var i := if f.indices[2] < 0 then 0 else 1;
      OmittedLeavesNoTrace(f, i);
      assert Only(i, Js("a"), Js("t"))[i] != ANY[i];
    }
  }

  /** Lookup agrees with the wildcard rule exactly if the format has all placeholders. */
  lemma LookupIsMatchingExactly(f: Format)
    requires Compiled(f)
    ensures LookupIsMatching(f) <==> Full(f)
  {
    if Full(f) {
      forall p: Path, q: Path, name, manufacturer, serialNumber |
        ValidPath(p) && ValidPath(q) && Matches(Filter(f, q), name)
        ensures Applies(p, Resolve(f, name, manufacturer, serialNumber)) <==> Matches(Filter(f, p), name)
      {
        if Matches(Filter(f, p), name) {
          MatchesApplies(f, p, name, manufacturer, serialNumber);
        }
        if Applies(p, Resolve(f, name, manufacturer, serialNumber)) {
          AppliesMatches(f, p, q, name, manufacturer, serialNumber);
        }
      }
    } else {
      var i := if f.indices[2] < 0 then 0 else 1;
      var p := Only(i, Js("a"), Js("t"));
      OmittedLeavesNoTrace(f, i);
      assert Matches(Filter(f, p), Filter(f, p));
      assert Resolve(f, Filter(f, p), None, None)[i] == None;
      assert !Applies(p, Resolve(f, Filter(f, p), None, None));
    }
  }

  /* The smallest format */

  const TOPIC_ONLY := Format([PLACEHOLDERS[4]], [-1, -1, -1, -1, 0], Js("uagv"), Js("v2"))

  lemma TopicOnlySplits()
    ensures Split(Js("%topic%")) == [PLACEHOLDERS[4]]
  {
    var topic := Js("%topic%");
    assert topic == PLACEHOLDERS[4];
    assert forall i :: 0 <= i < |topic| ==> topic[i] != SLASH;
    SplitLevel(topic);
  }

  lemma MajorVersionOfTwo()
    ensures MajorVersion(Js("2.0.0")) == Js("v2")
  {
    assert Js("2") + [0x2E] + Js("0.0") == Js("2.0.0") && 0x2E !in Js("2");
    MajorVersionOf(Js("2"), Js("0.0"));
    assert Js("v") + Js("2") == Js("v2");
  }

  lemma TopicOnlyIndex(k: nat)
    requires k < 5
    ensures var levels := [PLACEHOLDERS[4]];
            && IndexOf(levels, PLACEHOLDERS[k]) == (if k == 4 then 0 else -1)
            && !Elsewhere(levels, PLACEHOLDERS[k], IndexOf(levels, PLACEHOLDERS[k]))
  {
    if k < 4 {
      PlaceholdersDiffer(k, 4);
      assert |PLACEHOLDERS[k]| > |PLACEHOLDERS[4]|;
    }
  }

  lemma TopicOnlyCompiles()
    ensures Compile(Js("%topic%"), Js("uagv"), Js("2.0.0")) == Ok(TOPIC_ONLY) && Compiled(TOPIC_ONLY)
  {
    hide MajorVersion, Split, Elsewhere;
    TopicOnlySplits();
    MajorVersionOfTwo();
    var levels := [PLACEHOLDERS[4]];
    forall k | 0 <= k < 5
      ensures IndexOf(levels, PLACEHOLDERS[k]) == (if k == 4 then 0 else -1)
      ensures !Elsewhere(levels, PLACEHOLDERS[k], IndexOf(levels, PLACEHOLDERS[k]))
    {
      TopicOnlyIndex(k);
    }
    assert Indices(levels) == [-1, -1, -1, -1, 0];
    SplitNoSlashes(Js("%topic%"));
    forall c | c in Js("uagv") || c in Js("v2") ensures c != SLASH {
    }
  }

  lemma TopicOnlyPrints(m: JsString, s: JsString, t: JsString)
    ensures Print(TOPIC_ONLY, m, s, t) == t
  {
    assert Filled(TOPIC_ONLY, m, s, t) == [t];
  }

  /* Lengths */

  lemma {:induction false} JoinLast(levels: seq<JsString>, last: JsString)
    ensures Join(levels + [last]) == if levels == [] then last else Join(levels) + [SLASH] + last
  {
    if |levels| > 0 {
      assert (levels + [last])[1..] == levels[1..] + [last];
      JoinLast(levels[1..], last);
    }
  }

  lemma JoinLastCount(levels: seq<JsString>, last: JsString)
    ensures Count(Join(levels + [last])) == Count(Join(levels)) + (if levels == [] then 0 else 1) + Count(last)
  {
    JoinLast(levels, last);
    if levels != [] {
      CountConcat(Join(levels) + [SLASH], last);
      CountConcat(Join(levels), [SLASH]);
      CountOne(SLASH);
    }
  }

  /** A joined topic is not malformed exactly if none of its levels is. */
  lemma {:induction false} JoinWellFormed(levels: seq<JsString>)
    ensures WellFormed(Join(levels)) <==> forall i :: 0 <= i < |levels| ==> WellFormed(levels[i])
  {
    if |levels| > 1 {
      JoinWellFormed(levels[1..]);
      LoneAcrossSlash(levels[0], Join(levels[1..]));
      assert forall i :: 0 < i < |levels| ==> levels[i] == levels[1..][i - 1];
    }
  }

  /** The count is the true UTF-8 length of the topic exactly if no level of it is malformed. */
  lemma TopicLengthExactly(f: Format, m: JsString, s: JsString, t: JsString)
    requires |f.indices| == 5
    ensures Count(Print(f, m, s, t)) == |Utf8(Print(f, m, s, t))| <==>
            forall i :: 0 <= i < |f.levels| ==> WellFormed(Filled(f, m, s, t)[i])
  {
    hide Filled, Join, WellFormed, Utf8, Count;
    JoinWellFormed(Filled(f, m, s, t));
    CountIsUtf8LengthExactly(Print(f, m, s, t));
  }

  /** Assigning at index -1 creates a property that is no element of the array. */
  function Assigned(levels: seq<JsString>, i: int, level: JsString): (r: seq<JsString>)
    requires -1 <= i < |levels|
    ensures |r| == |levels| && forall j :: 0 <= j < |r| ==> r[j] == if j == i then level else levels[j]
  {
    if i >= 0 then levels[i := level] else levels
  }

  /** The levels that no placeholder is replaced at are those of the format. */
  ghost predicate KeepsLiterals(f: Format, levels: seq<JsString>) {
    |levels| == |f.levels| && forall j :: 0 <= j < |levels| && j !in f.indices ==> levels[j] == f.levels[j]
  }

  /** The five assignments replace all placeholders, whatever was there before. */
  lemma AssignedIsFilled(f: Format, before: seq<JsString>, m: JsString, s: JsString, t: JsString)
    requires Compiled(f) && KeepsLiterals(f, before)
    ensures var l0 := Assigned(before, f.indices[0], f.interfaceName);
            var l1 := Assigned(l0, f.indices[1], f.majorVersion);
            var l2 := Assigned(l1, f.indices[2], m);
            var l3 := Assigned(l2, f.indices[3], s);
            Assigned(l3, f.indices[4], t) == Filled(f, m, s, t)
  {
    hide Assigned, NoSlashes, NoSlash, Filled;
    var l0 := Assigned(before, f.indices[0], f.interfaceName);
    var l1 := Assigned(l0, f.indices[1], f.majorVersion);
    var l2 := Assigned(l1, f.indices[2], m);
    var l3 := Assigned(l2, f.indices[3], s);
    var l4 := Assigned(l3, f.indices[4], t);
    forall j | 0 <= j < |l4| ensures l4[j] == LevelAt(f, m, s, t, j) {
      assert l0[j] == if j == f.indices[0] then f.interfaceName else before[j];
      assert l2[j] == if j == f.indices[2] then m else l1[j];
    }
  }

  lemma FilledKeepsLiterals(f: Format, m: JsString, s: JsString, t: JsString)
    requires |f.indices| == 5
    ensures KeepsLiterals(f, Filled(f, m, s, t))
  {
  }

  /** The closures of a compiled format, and the array of levels that they share. */
  class MqttTopics {
    const format: Format
    const levels: array<JsString>

    /** Only the levels of placeholders ever change. */
    ghost predicate Valid()
      reads this, levels
    {
      Compiled(format) && KeepsLiterals(format, levels[..])
    }

    constructor (format: Format)
      requires Compiled(format)
      ensures Valid() && this.format == format && fresh(levels)
    {
      this.format := format;
      levels := new JsString[|format.levels|](j requires 0 <= j < |format.levels| => format.levels[j]);
    }

    method Assign(i: int, level: JsString)
      requires -1 <= i < levels.Length
      modifies levels
      ensures levels[..] == Assigned(old(levels[..]), i, level)
    {
      if i >= 0 {
        levels[i] := level;
      }
    }

    /** Overwrites whatever previous calls left behind. */
    method Fill(manufacturer: JsString, serialNumber: JsString, topic: JsString)
      requires Valid()
      modifies levels
      ensures Valid() && levels[..] == Filled(format, manufacturer, serialNumber, topic)
    {
      hide Assigned, LevelAt;
      AssignedIsFilled(format, levels[..], manufacturer, serialNumber, topic);
      Assign(format.indices[0], format.interfaceName);
      Assign(format.indices[1], format.majorVersion);
      Assign(format.indices[2], manufacturer);
      Assign(format.indices[3], serialNumber);
      Assign(format.indices[4], topic);
      FilledKeepsLiterals(format, manufacturer, serialNumber, topic);
    }

    method Construct(manufacturer: JsString, serialNumber: JsString, topic: JsString) returns (mqttTopic: JsString)
      requires Valid()
      modifies levels
      ensures Valid() && mqttTopic == Print(format, manufacturer, serialNumber, topic)
    {
      Fill(manufacturer, serialNumber, topic);
      mqttTopic := Join(levels[..]);
    }

    /** The length in octets of the topic that `Construct` would print, without printing it. */
    method Utf8Length(manufacturer: JsString, serialNumber: JsString, topic: JsString) returns (length: nat)
      requires Valid()
      modifies levels
      ensures Valid() && length == Count(Print(format, manufacturer, serialNumber, topic))
    {
      Fill(manufacturer, serialNumber, topic);
      ghost var filled := levels[..];
      length := 0;
      var i := 0;
      while i < levels.Length
        invariant 0 <= i <= levels.Length && levels[..] == filled && Valid()
        invariant length == Count(Join(levels[..i])) + if 0 < i < levels.Length then 1 else 0
      {
        assert levels[..i + 1] == levels[..i] + [levels[i]];
        JoinLastCount(levels[..i], levels[i]);
        var count := GetUtf8BytesCount(levels[i]);
        length := length + count + if i == levels.Length - 1 then 0 else 1;
        i := i + 1;
      }
      assert levels[..i] == levels[..];
    }
  }
}
