/** UTF-8 lengths of UTF-16 strings (section 3 of RFC 3629), and the limit on the length of MQTT topics. */
module MqttUtils {
  import opened Wrappers
  import opened JsString

  const MAX_MQTT_TOPIC_UTF8_COUNT := 65535

  datatype Error = TopicTooLong

  /* Code points */

  type CodePoint = c: nat | c < 0x110000 && !(0xD800 <= c <= 0xDFFF) witness 0

  type Byte = b: nat | b < 0x100

  const REPLACEMENT: CodePoint := 0xFFFD

  predicate High(c: CodeUnit) {
    0xD800 <= c <= 0xDBFF
  }

  predicate Low(c: CodeUnit) {
    0xDC00 <= c <= 0xDFFF
  }

  predicate Pair(s: JsString) {
    |s| >= 2 && High(s[0]) && Low(s[1])
  }

  /** The code points of a string; a surrogate without partner stands for U+FFFD. */
  function CodePoints(s: JsString): seq<CodePoint> {
    if s == [] then []
    else if Pair(s) then [0x10000 + (s[0] - 0xD800) * 0x400 + (s[1] - 0xDC00)] + CodePoints(s[2..])
    else [if High(s[0]) || Low(s[0]) then REPLACEMENT else s[0]] + CodePoints(s[1..])
  }

  /** The number of surrogates without partner. */
  function Lone(s: JsString): nat {
    if s == [] then 0
    else if Pair(s) then Lone(s[2..])
    else (if High(s[0]) || Low(s[0]) then 1 else 0) + Lone(s[1..])
  }

  /** The string is not malformed: all surrogates come in pairs. */
  predicate WellFormed(s: JsString) {
    Lone(s) == 0
  }

  /** The table of section 3 of RFC 3629. */
  function Encode(c: CodePoint): seq<Byte> {
    if c < 0x80 then [c]
    else if c < 0x800 then [0xC0 + c / 0x40, 0x80 + c % 0x40]
    else if c < 0x10000 then [0xE0 + c / 0x1000, 0x80 + c / 0x40 % 0x40, 0x80 + c % 0x40]
    else [0xF0 + c / 0x40000, 0x80 + c / 0x1000 % 0x40, 0x80 + c / 0x40 % 0x40, 0x80 + c % 0x40]
  }

  function EncodeAll(points: seq<CodePoint>): seq<Byte> {
    if points == [] then [] else Encode(points[0]) + EncodeAll(points[1..])
  }

  function Utf8(s: JsString): seq<Byte> {
    EncodeAll(CodePoints(s))
  }

  /** The number of octets that a leading octet announces. */
  function Octets(lead: int): nat {
    if lead < 0x80 then 1 else if lead < 0xE0 then 2 else if lead < 0xF0 then 3 else 4
  }

  function DecodeFirst(b: seq<int>): int
    requires b != [] && |b| >= Octets(b[0])
  {
    var n := Octets(b[0]);
    if n == 1 then b[0]
    else if n == 2 then (b[0] - 0xC0) * 0x40 + (b[1] - 0x80)
    else if n == 3 then (b[0] - 0xE0) * 0x1000 + (b[1] - 0x80) * 0x40 + (b[2] - 0x80)
    else (b[0] - 0xF0) * 0x40000 + (b[1] - 0x80) * 0x1000 + (b[2] - 0x80) * 0x40 + (b[3] - 0x80)
  }

  /** The first code point can be read back, whatever follows. */
  lemma EncodeDecodes(c: CodePoint, rest: seq<Byte>)
    ensures var b := Encode(c) + rest; b != [] && Octets(b[0]) == |Encode(c)| && DecodeFirst(b) == c
  {
    if c >= 0x10000 {
      assert c / 0x1000 / 0x40 == c / 0x40000;
      assert c / 0x40 / 0x40 == c / 0x1000;
    } else if c >= 0x800 {
      assert c / 0x40 / 0x40 == c / 0x1000;
    }
  }

  /* Counting */

  function Cost(c: CodeUnit): nat {
    if c <= 0x007F then 1 else if c <= 0x07FF then 2 else if c <= 0xD7FF then 3 else if c <= 0xDFFF then 2 else 3
  }

  function Count(s: JsString): nat {
    if s == [] then 0 else Count(s[..|s| - 1]) + Cost(s[|s| - 1])
  }

  lemma {:induction false} CountConcat(a: JsString, b: JsString)
    ensures Count(a + b) == Count(a) + Count(b)
  {
    if b == [] {
      assert a + b == a;
    } else {
      assert (a + b)[..|a + b| - 1] == a + b[..|b| - 1];
      CountConcat(a, b[..|b| - 1]);
    }
  }

  lemma CountFirst(s: JsString, k: nat)
    requires k <= |s|
    ensures Count(s) == Count(s[..k]) + Count(s[k..])
  {
    CountConcat(s[..k], s[k..]);
    assert s[..k] + s[k..] == s;
  }

  lemma CountOne(c: CodeUnit)
    ensures Count([c]) == Cost(c)
  {
    assert [c][..0] == [];
  }

  lemma CountPair(c: CodeUnit, d: CodeUnit)
    ensures Count([c, d]) == Cost(c) + Cost(d)
  {
    assert [c, d][..1] == [c];
    CountOne(c);
  }

  /** A surrogate without partner is counted as two octets, one less than U+FFFD takes. */
  lemma {:induction false} CountIsUtf8Length(s: JsString)
    ensures Count(s) + Lone(s) == |Utf8(s)|
  {
    if s != [] {
      if Pair(s) {
        CountFirst(s, 2);
        CountPair(s[0], s[1]);
        assert s[..2] == [s[0], s[1]];
        CountIsUtf8Length(s[2..]);
      } else {
        CountFirst(s, 1);
        CountOne(s[0]);
        assert s[..1] == [s[0]];
        CountIsUtf8Length(s[1..]);
      }
    }
  }

  /** The count is the UTF-8 length exactly for strings that are not malformed. */
  lemma CountIsUtf8LengthExactly(s: JsString)
    ensures Count(s) == |Utf8(s)| <==> WellFormed(s)
  {
    CountIsUtf8Length(s);
  }

  /** A slash keeps the surrogates on its two sides apart. */
  lemma {:induction false} LoneAcrossSlash(a: JsString, b: JsString)
    ensures Lone(a + [SLASH] + b) == Lone(a) + Lone(b)
  {
    var s := a + [SLASH] + b;
    if a == [] {
      assert s[1..] == b;
    } else if Pair(a) {
      assert s[2..] == a[2..] + [SLASH] + b;
      LoneAcrossSlash(a[2..], b);
    } else {
      assert s[1..] == a[1..] + [SLASH] + b;
      LoneAcrossSlash(a[1..], b);
    }
  }

  lemma {:induction false} CountBounds(s: JsString)
    ensures |s| <= Count(s) <= 3 * |s|
  {
    if s != [] {
      CountBounds(s[..|s| - 1]);
    }
  }

  method GetUtf8BytesCount(str: JsString) returns (count: nat)
    ensures count == Count(str) && count + Lone(str) == |Utf8(str)|
  {
    count := 0;
    var strLen := |str|;
    for i := 0 to strLen
      invariant count == Count(str[..i])
    {
      assert str[..i + 1][..i] == str[..i];
      var code := str[i];
      if code <= 0x007F {
        count := count + 1;
      } else if code <= 0x07FF {
        count := count + 2;
      } else if code <= 0xD7FF {
        count := count + 3;
      } else if code <= 0xDFFF {
        // High and low surrogates.
        count := count + 2;
      } else {
        count := count + 3;
      }
    }
    assert str[..strLen] == str;
    CountIsUtf8Length(str);
  }

  method AssertMqttTopicUtf8Count(utf8Count: nat) returns (r: Result<(), Error>)
    ensures r.Err? <==> utf8Count > 65535
  {
    if utf8Count > MAX_MQTT_TOPIC_UTF8_COUNT {
      return Err(TopicTooLong);
    }
    return Ok(());
  }

  /** The shortcut for short topics never lets a long one pass. */
  method AssertMqttTopicLength(mqttTopic: JsString) returns (r: Result<(), Error>)
    ensures r.Err? <==> Count(mqttTopic) > 65535
    ensures WellFormed(mqttTopic) ==> (r.Err? <==> |Utf8(mqttTopic)| > 65535)
  {
    CountBounds(mqttTopic);
    CountIsUtf8Length(mqttTopic);
    if |mqttTopic| * 4 > MAX_MQTT_TOPIC_UTF8_COUNT {
      var count := GetUtf8BytesCount(mqttTopic);
      r := AssertMqttTopicUtf8Count(count);
    } else {
      r := Ok(());
    }
  }
}
