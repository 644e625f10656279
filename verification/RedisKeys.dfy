/** The keys under which v1 stores frames in Redis: printing, parsing, searching, and the sequence
    number that keeps keys of one camera and instant apart. */
module RedisKeys {
  import opened Decimal
  import opened Options

  datatype Strategy = Unset | Basic | Sequence | Uuid | Unknown

  datatype Config = Config(strategy: Strategy, prefix: string, vhost: string)

  function WithDefaults(c: Config): Config {
    c.(strategy := if c.strategy.Unset? then Sequence else c.strategy,
       vhost := if c.vhost == "" then "default" else c.vhost)
  }

  datatype Components = Components(prefix: string, vhost: string, cameraId: string, timestamp: int, suffix: string)

  datatype Result<T> = Ok(value: T) | InvalidFormat | InvalidTimestamp

  // ----- printing -----

  function BaseKey(vhost: string, prefix: string, cam: string, timestamp: int): string {
    vhost + ":" + (prefix + ":" + (cam + ":" + Signed(timestamp)))
  }

  function Key(vhost: string, prefix: string, cam: string, timestamp: int, suffix: Option<string>): string {
    BaseKey(vhost, prefix, cam, timestamp) + match suffix case None => "" case Some(x) => ":" + x
  }

  const MAX_SEQUENCE := 99999

  function NextSequence(n: nat): nat {
    if n + 1 > MAX_SEQUENCE then 1 else n + 1
  }

  /** The suffix of the next key; the characters of a new UUID come from outside. */
  function SuffixFor(strategy: Strategy, sequence: nat, uuid: string): Option<string> {
    match strategy
    case Sequence => Some(Padded(NextSequence(sequence), 5))
    case Uuid => Some(uuid)
    case _ => None
  }

  lemma {:induction false} KeyInWords(vhost: string, prefix: string, cam: string, timestamp: int, x: string)
    ensures Key(vhost, prefix, cam, timestamp, None) == vhost + ":" + prefix + ":" + cam + ":" + Signed(timestamp)
    ensures Key(vhost, prefix, cam, timestamp, Some(x)) ==
            vhost + ":" + prefix + ":" + cam + ":" + Signed(timestamp) + ":" + x
  {
    var base := vhost + ":" + prefix + ":" + cam + ":" + Signed(timestamp);
    assert BaseKey(vhost, prefix, cam, timestamp) == base;
    assert base + "" == base && base + (":" + x) == base + ":" + x;
  }

  class KeyGenerator {
    const config: Config
    var sequence: nat

    constructor (config: Config)
      ensures this.config == WithDefaults(config) && sequence == 0
      ensures this.config.prefix == config.prefix
      ensures this.config.vhost == if config.vhost == "" then "default" else config.vhost
      ensures this.config.strategy == if config.strategy.Unset? then Sequence else config.strategy
    {
      this.config := WithDefaults(config);
      sequence := 0;
    }

    method GetNextSequence() returns (n: nat)
      modifies this
      ensures n == sequence == if old(sequence) >= 99999 then 1 else old(sequence) + 1
    {
      sequence := sequence + 1;
      if sequence > MAX_SEQUENCE {
        sequence := 1;
      }
      n := sequence;
    }

    method GenerateKey(cam: string, timestamp: int, uuid: string) returns (key: string)
      modifies this
      ensures key == Key(config.vhost, config.prefix, cam, timestamp, SuffixFor(config.strategy, old(sequence), uuid))
      ensures config.strategy.Sequence? ==>
                && sequence == (if old(sequence) >= 99999 then 1 else old(sequence) + 1)
                && key == config.vhost + ":" + config.prefix + ":" + cam + ":" + Signed(timestamp)
                          + ":" + Padded(sequence, 5)
      ensures config.strategy.Uuid? ==>
                key == config.vhost + ":" + config.prefix + ":" + cam + ":" + Signed(timestamp) + ":" + uuid
      ensures !config.strategy.Sequence? && !config.strategy.Uuid? ==>
                key == config.vhost + ":" + config.prefix + ":" + cam + ":" + Signed(timestamp)
      ensures !config.strategy.Sequence? ==> sequence == old(sequence)
    {
      var baseKey := config.vhost + ":" + (config.prefix + ":" + (cam + ":" + Signed(timestamp)));
      match config.strategy {
        case Sequence =>
          var n := GetNextSequence();
          key := baseKey + (":" + Padded(n, 5));
          KeyInWords(config.vhost, config.prefix, cam, timestamp, Padded(n, 5));
        case Uuid =>
          key := baseKey + (":" + uuid);
          KeyInWords(config.vhost, config.prefix, cam, timestamp, uuid);
        case _ =>
          key := baseKey + "";
          KeyInWords(config.vhost, config.prefix, cam, timestamp, "");
      }
    }
  }

  /** The key that the documentation of the generator shows. */
  method DocumentedExample() returns (key: string)
    ensures key == "supermercado_vhost:frames:cam4:1731024000123456789:00001"
  {
    var kg := new KeyGenerator(Config(Unset, "frames", "supermercado_vhost"));
    key := kg.GenerateKey("cam4", 1731024000123456789, "");
    ExampleDigits();
    ExampleText(key, Signed(1731024000123456789), Padded(1, 5));
  }

  lemma {:induction false} ExampleText(key: string, number: string, suffix: string)
    requires key == "supermercado_vhost" + ":" + "frames" + ":" + "cam4" + ":" + number + ":" + suffix
    requires number == "1731024000123456789" && suffix == "00001"
    ensures key == "supermercado_vhost:frames:cam4:1731024000123456789:00001"
  {
  }

  lemma {:induction false} ExampleDigits()
    ensures Signed(1731024000123456789) == "1731024000123456789"
    ensures Padded(1, 5) == "00001"
  {
    assert Dec(1) == "1";
    ThreeMore(1, 7, 3, 1);
    ThreeMore(1731, 0, 2, 4);
    ThreeMore(1731024, 0, 0, 0);
    ThreeMore(1731024000, 1, 2, 3);
    ThreeMore(1731024000123, 4, 5, 6);
    ThreeMore(1731024000123456, 7, 8, 9);
  }

  // ----- parsing -----

  predicate NoColon(s: string) {
    ':' !in s
  }

  /** strings.Index(s, ":") */
  function Index(s: string): (i: int)
    ensures -1 <= i < |s|
    ensures i == -1 <==> NoColon(s)
    ensures i >= 0 ==> s[i] == ':' && NoColon(s[..i])
  {
    if s == [] then -1
    else if s[0] == ':' then 0
    else
      var i := Index(s[1..]);
      if i == -1 then
        assert s == [s[0]] + s[1..];
        -1
      else
        assert s[..i + 1] == [s[0]] + s[1..][..i];
        i + 1
  }

  /** strings.LastIndex(s, ":") */
  function LastIndex(s: string): (i: int)
    ensures -1 <= i < |s|
    ensures i == -1 <==> NoColon(s)
    ensures i >= 0 ==> s[i] == ':' && NoColon(s[i + 1..])
  {
    if s == [] then -1
    else if s[|s| - 1] == ':' then |s| - 1
    else
      var i := LastIndex(s[..|s| - 1]);
      if i == -1 then
        assert s == s[..|s| - 1] + [s[|s| - 1]];
        -1
      else
        assert s[i + 1..] == s[..|s| - 1][i + 1..] + [s[|s| - 1]];
        i
  }

  /** What is before and after the first colon. */
  function Cut(s: string): (r: Option<(string, string)>)
    ensures r.Some? ==> NoColon(r.value.0)
  {
    var i := Index(s);
    if i == -1 then None else Some((s[..i], s[i + 1..]))
  }

  /** What is before and after the last colon; a colon at the very start does not count. */
  function CutLast(s: string): (string, string) {
    var i := LastIndex(s);
    if i > 0 then (s[..i], s[i + 1..]) else (s, "")
  }

  /** The part after the camera id: a timestamp, and perhaps a suffix. */
  function ParseTail(remaining: string): Option<(int, string)> {
    var parts := CutLast(remaining);
    match Scan(parts.0)
    case None => None
    case Some(nanos) => Some((nanos, parts.1))
  }

  function ParseKey(key: string): Result<Components> {
    match Cut(key)
    case None => InvalidFormat
    case Some((vhost, afterVhost)) =>
      match Cut(afterVhost)
      case None => InvalidFormat
      case Some((prefix, afterPrefix)) =>
        match Cut(afterPrefix)
        case None => InvalidFormat
        case Some((cam, remaining)) =>
          match ParseTail(remaining)
          case None => InvalidTimestamp
          case Some((nanos, suffix)) => Ok(Components(prefix, vhost, cam, nanos, suffix))
  }

  /** The text before a colon is found whole exactly when it has no colon of its own. */
  lemma {:induction false} CutAfter(a: string, b: string)
    ensures Cut(a + ":" + b) == Some((a, b)) <==> NoColon(a)
  {
    var s := a + ":" + b;
    var i := Index(s);
    assert s[|a|] == ':';
    assert forall k :: 0 <= k < i ==> s[..i][k] == s[k];
    assert s[..|a|] == a && s[|a| + 1..] == b;
    if i < |a| {
      assert a[i] == ':';
    }
  }

  lemma {:induction false} LastIndexIs(s: string, k: nat)
    requires k < |s| && s[k] == ':' && NoColon(s[k + 1..])
    ensures LastIndex(s) == k
  {
    var i := LastIndex(s);
    assert forall j :: k < j < |s| ==> s[j] == s[k + 1..][j - k - 1];
    assert forall j :: i < j < |s| ==> s[j] == s[i + 1..][j - i - 1];
  }

  lemma {:induction false} CutLastAfter(a: string, b: string)
    requires a != "" && NoColon(b)
    ensures CutLast(a + ":" + b) == (a, b)
  {
    var s := a + ":" + b;
    assert s[|a| + 1..] == b && s[..|a|] == a;
    LastIndexIs(s, |a|);
  }

  function WithSuffix(number: string, suffix: Option<string>): string {
    number + match suffix case None => "" case Some(x) => ":" + x
  }

  function Tail(timestamp: int, suffix: Option<string>): string {
    WithSuffix(Signed(timestamp), suffix)
  }

  lemma {:induction false} KeyParts(vhost: string, prefix: string, cam: string, timestamp: int, suffix: Option<string>)
    ensures Key(vhost, prefix, cam, timestamp, suffix) ==
            vhost + ":" + (prefix + ":" + (cam + ":" + Tail(timestamp, suffix)))
  {
  }

  predicate Suffix(suffix: Option<string>) {
    suffix.Some? ==> NoColon(suffix.value)
  }

  function Text(suffix: Option<string>): string {
    match suffix case None => "" case Some(x) => x
  }

  lemma {:induction false} SignedHasNoColon(timestamp: int)
    ensures NoColon(Signed(timestamp)) && |Signed(timestamp)| >= 1
  {
    DecDigits(if timestamp < 0 then -timestamp else timestamp);
    forall i | 0 <= i < |Signed(timestamp)|
      ensures Signed(timestamp)[i] != ':'
    {
    }
  }

  lemma {:induction false} TailCut(number: string, suffix: Option<string>)
    requires number != "" && Suffix(suffix) && (suffix.None? ==> NoColon(number))
    ensures CutLast(WithSuffix(number, suffix)) == (number, Text(suffix))
  {
    match suffix
    case None => assert number + "" == number;
    case Some(x) =>
      CutLastAfter(number, x);
      assert number + (":" + x) == number + ":" + x;
  }

  /** The last part of a key is read back. */
  lemma {:induction false} TailRoundTrip(timestamp: int, suffix: Option<string>)
    requires -9_223_372_036_854_775_808 <= timestamp <= 9_223_372_036_854_775_807 && Suffix(suffix)
    ensures ParseTail(Tail(timestamp, suffix)) == Some((timestamp, Text(suffix)))
  {
    SignedHasNoColon(timestamp);
    ScanSigned(timestamp);
    TailCut(Signed(timestamp), suffix);
  }

  lemma {:induction false} ParsedFieldsHaveNoColon(key: string)
    ensures var r := ParseKey(key);
            r.Ok? ==> NoColon(r.value.vhost) && NoColon(r.value.prefix) && NoColon(r.value.cameraId)
  {
  }

  lemma {:induction false} ReadBack(vhost: string, prefix: string, cam: string, t: string)
    requires NoColon(vhost) && NoColon(prefix) && NoColon(cam)
    ensures ParseKey(vhost + ":" + (prefix + ":" + (cam + ":" + t))) ==
            match ParseTail(t)
            case None => InvalidTimestamp
            case Some((nanos, suffix)) => Ok(Components(prefix, vhost, cam, nanos, suffix))
  {
    CutAfter(vhost, prefix + ":" + (cam + ":" + t));
    CutAfter(prefix, cam + ":" + t);
    CutAfter(cam, t);
  }

  function Colons(s: string): nat {
    if s == [] then 0 else Colons(s[1..]) + if s[0] == ':' then 1 else 0
  }

  lemma {:induction false} ColonsOf(a: string, b: string)
    requires NoColon(a)
    ensures Colons(a) == 0 && Colons(a + ":" + b) == 1 + Colons(b)
  {
    if a == [] {
      assert (a + ":" + b)[1..] == b;
    } else {
      ColonsOf(a[1..], b);
      assert (a + ":" + b)[1..] == a[1..] + ":" + b;
    }
  }

  lemma {:induction false} CutCounts(s: string)
    ensures Cut(s).None? <==> Colons(s) == 0
    ensures Cut(s).Some? ==> Colons(s) == 1 + Colons(Cut(s).value.1)
  {
    var i := Index(s);
    if i == -1 {
      ColonsOf(s, "");
    } else {
      ColonsOf(s[..i], s[i + 1..]);
      assert s == s[..i] + ":" + s[i + 1..];
    }
  }

  /** The format is refused exactly for a text with fewer than three colons. */
  lemma {:induction false} FormatNeedsThreeColons(key: string)
    ensures ParseKey(key).InvalidFormat? <==> Colons(key) < 3
  {
    CutCounts(key);
    match Cut(key)
    case None =>
    case Some((_, afterVhost)) =>
      CutCounts(afterVhost);
      match Cut(afterVhost)
      case None =>
      case Some((_, afterPrefix)) => CutCounts(afterPrefix);
  }

  /** Any text of that format: three fields, and then what is scanned as a number, and behind the last
      colon a suffix. Only a number that cannot be scanned is refused. */
  lemma {:induction false} ParseFields(vhost: string, prefix: string, cam: string,
                                       number: string, suffix: Option<string>)
    requires NoColon(vhost) && NoColon(prefix) && NoColon(cam) && number != "" && Suffix(suffix)
    requires suffix.None? ==> NoColon(number)
    ensures ParseKey(vhost + ":" + (prefix + ":" + (cam + ":" + WithSuffix(number, suffix)))) ==
            match Scan(number)
            case None => InvalidTimestamp
            case Some(nanos) => Ok(Components(prefix, vhost, cam, nanos, Text(suffix)))
  {
    ReadBack(vhost, prefix, cam, WithSuffix(number, suffix));
    TailCut(number, suffix);
  }

  /** Round trip. A key is parsed into what it was made of exactly when neither the virtual host nor the
      prefix nor the camera id contains a colon; the timestamp is any int64, the strategy any. */
  lemma {:induction false} RoundTrip(vhost: string, prefix: string, cam: string, timestamp: int, suffix: Option<string>)
    requires -9_223_372_036_854_775_808 <= timestamp <= 9_223_372_036_854_775_807 && Suffix(suffix)
    ensures ParseKey(Key(vhost, prefix, cam, timestamp, suffix)) ==
            Ok(Components(prefix, vhost, cam, timestamp, Text(suffix)))
            <==> NoColon(vhost) && NoColon(prefix) && NoColon(cam)
  {
    ParsedFieldsHaveNoColon(Key(vhost, prefix, cam, timestamp, suffix));
    if NoColon(vhost) && NoColon(prefix) && NoColon(cam) {
      KeyParts(vhost, prefix, cam, timestamp, suffix);
      ReadBack(vhost, prefix, cam, Tail(timestamp, suffix));
      TailRoundTrip(timestamp, suffix);
    }
  }

  /** So different frames have different keys. */
  lemma {:induction false} KeysAreInjective(a: Components, b: Components, x: Option<string>, y: Option<string>)
    requires NoColon(a.vhost) && NoColon(a.prefix) && NoColon(a.cameraId) && Suffix(x)
    requires NoColon(b.vhost) && NoColon(b.prefix) && NoColon(b.cameraId) && Suffix(y)
    requires -9_223_372_036_854_775_808 <= a.timestamp <= 9_223_372_036_854_775_807
    requires -9_223_372_036_854_775_808 <= b.timestamp <= 9_223_372_036_854_775_807
    requires a.suffix == Text(x) && b.suffix == Text(y)
    requires Key(a.vhost, a.prefix, a.cameraId, a.timestamp, x) == Key(b.vhost, b.prefix, b.cameraId, b.timestamp, y)
    ensures a == b
  {
    RoundTrip(a.vhost, a.prefix, a.cameraId, a.timestamp, x);
    RoundTrip(b.vhost, b.prefix, b.cameraId, b.timestamp, y);
  }

  // ----- searching -----

  function QueryPattern(c: Config, cam: string, vhost: string): string {
    var v := if vhost == "" then c.vhost else vhost;
    if cam == "" then v + ":" + (c.prefix + ":" + "*") else v + ":" + (c.prefix + ":" + (cam + ":" + "*"))
  }

  /** Characters that mean something else than themselves in a Redis pattern. */
  predicate Plain(s: string) {
    forall i :: 0 <= i < |s| ==> s[i] !in {'*', '?', '[', '\\'}
  }

  /** Redis matching for patterns without brackets and escapes. */
  predicate Matches(pattern: string, s: string)
    decreases |pattern| + |s|
  {
    if pattern == [] then s == []
    else if pattern[0] == '*' then Matches(pattern[1..], s) || (s != [] && Matches(pattern, s[1..]))
    else s != [] && (pattern[0] == '?' || pattern[0] == s[0]) && Matches(pattern[1..], s[1..])
  }

  lemma {:induction false} StarMatches(s: string)
    ensures Matches("*", s)
  {
    if s == [] {
      assert "*"[1..] == [];
    } else {
      StarMatches(s[1..]);
    }
  }

  lemma {:induction false} MatchesPrefix(p: string, s: string)
    requires Plain(p)
    ensures Matches(p + "*", s) <==> p <= s
  {
    if p == [] {
      assert p + "*" == "*";
      StarMatches(s);
    } else if s != [] {
      assert (p + "*")[1..] == p[1..] + "*";
      MatchesPrefix(p[1..], s[1..]);
      assert p == [p[0]] + p[1..] && s == [s[0]] + s[1..];
    }
  }

  /** A colon-free field at the head is the same in both texts if one is a prefix of the other. */
  lemma {:induction false} FieldsAgree(a: string, b: string, x: string, y: string)
    requires NoColon(a) && NoColon(b)
    ensures a + ":" + x <= b + ":" + y <==> a == b && x <= y
  {
    var s, t := a + ":" + x, b + ":" + y;
    if s <= t {
      assert s[|a|] == ':' && t[|b|] == ':';
      assert forall i :: 0 <= i < |s| ==> s[i] == t[i];
      assert forall i :: 0 <= i < |a| ==> s[i] == a[i] && a[i] != ':';
      assert forall i :: 0 <= i < |b| ==> t[i] == b[i] && b[i] != ':';
      assert |a| == |b|;
      assert a == s[..|a|] && b == t[..|b|];
      assert x == s[|a| + 1..] && y == t[|b| + 1..];
    }
    if a == b && x <= y {
      assert t == s + y[|x|..];
    }
  }

  lemma {:induction false} FieldIsHead(a: string, k: string, y: string)
    requires NoColon(a)
    ensures a + ":" <= k + ":" + y <==> a == k || a + ":" <= k
  {
    var s, t := a + ":", k + ":" + y;
    if |a| < |k| {
      assert t[..|s|] == k[..|s|];
    } else if s <= t {
      assert t[|k|] == ':';
      assert forall i :: 0 <= i < |a| ==> t[i] == a[i] && a[i] != ':';
      assert t[..|a|] == a && t[..|k|] == k;
    }
    if a == k {
      assert t == s + y;
    }
  }

  /** If other camera ids may contain colons, the search for a camera finds its own frames and exactly
      those of the cameras whose id begins with this id and a colon. */
  lemma {:induction false} SearchFinds(c: Config, cam: string, vhost: string,
                                       v: string, p: string, k: string, timestamp: int, suffix: Option<string>)
    requires NoColon(c.vhost) && NoColon(c.prefix) && NoColon(cam) && NoColon(vhost) && cam != ""
    requires Plain(c.vhost) && Plain(c.prefix) && Plain(cam) && Plain(vhost)
    requires NoColon(v) && NoColon(p)
    ensures Matches(QueryPattern(c, cam, vhost), Key(v, p, k, timestamp, suffix)) <==>
            v == (if vhost == "" then c.vhost else vhost) && p == c.prefix && (k == cam || cam + ":" <= k)
  {
    var host := if vhost == "" then c.vhost else vhost;
    var t := Tail(timestamp, suffix);
    var head := host + ":" + (c.prefix + ":" + (cam + ":"));
    KeyParts(v, p, k, timestamp, suffix);
    assert QueryPattern(c, cam, vhost) == head + "*";
    MatchesPrefix(head, Key(v, p, k, timestamp, suffix));
    FieldsAgree(host, v, c.prefix + ":" + (cam + ":"), p + ":" + (k + ":" + t));
    FieldsAgree(c.prefix, p, cam + ":", k + ":" + t);
    FieldIsHead(cam, k, t);
  }

  /** The search for one camera of one virtual host finds a key exactly when it was generated for that
      camera, and the search for a virtual host exactly when it was generated there. */
  lemma {:induction false} SearchIsExact(c: Config, cam: string, vhost: string,
                                         v: string, p: string, k: string, timestamp: int, suffix: Option<string>)
    requires NoColon(c.vhost) && NoColon(c.prefix) && NoColon(cam) && NoColon(vhost)
    requires Plain(c.vhost) && Plain(c.prefix) && Plain(cam) && Plain(vhost)
    requires NoColon(v) && NoColon(p) && NoColon(k)
    ensures Matches(QueryPattern(c, cam, vhost), Key(v, p, k, timestamp, suffix)) <==>
            v == (if vhost == "" then c.vhost else vhost) && p == c.prefix && (cam == "" || k == cam)
  {
    if cam == "" {
      var host := if vhost == "" then c.vhost else vhost;
      var t := Tail(timestamp, suffix);
      var head := host + ":" + (c.prefix + ":" + "");
      KeyParts(v, p, k, timestamp, suffix);
      assert QueryPattern(c, cam, vhost) == head + "*";
      MatchesPrefix(head, Key(v, p, k, timestamp, suffix));
      FieldsAgree(host, v, c.prefix + ":" + "", p + ":" + (k + ":" + t));
      FieldsAgree(c.prefix, p, "", k + ":" + t);
    } else {
      SearchFinds(c, cam, vhost, v, p, k, timestamp, suffix);
      assert (cam + ":")[|cam|] == ':';
    }
  }

  // ----- order -----

  lemma {:induction false} LessSamePrefix(p: string, x: string, y: string)
    ensures Less(p + x, p + y) <==> Less(x, y)
  {
    LessAppend(p, p, x, y);
    LessIrreflexive(p);
  }

  /** For one camera, keys with timestamps of equally many digits are ordered by timestamp, then by
      sequence number. */
  lemma {:induction false} KeysAreOrdered(vhost: string, prefix: string, cam: string,
                                          t1: nat, t2: nat, n1: nat, n2: nat)
    requires |Dec(t1)| == |Dec(t2)| && n1 <= 99999 && n2 <= 99999
    ensures Less(Key(vhost, prefix, cam, t1, Some(Padded(n1, 5))),
                 Key(vhost, prefix, cam, t2, Some(Padded(n2, 5)))) <==>
            t1 < t2 || (t1 == t2 && n1 < n2)
  {
    var s1, s2 := Padded(n1, 5), Padded(n2, 5);
    var head := vhost + ":" + (prefix + ":" + (cam + ":"));
    KeyParts(vhost, prefix, cam, t1, Some(s1));
    KeyParts(vhost, prefix, cam, t2, Some(s2));
    assert Key(vhost, prefix, cam, t1, Some(s1)) == head + (Dec(t1) + (":" + s1));
    assert Key(vhost, prefix, cam, t2, Some(s2)) == head + (Dec(t2) + (":" + s2));
    LessSamePrefix(head, Dec(t1) + (":" + s1), Dec(t2) + (":" + s2));
    LessAppend(Dec(t1), Dec(t2), ":" + s1, ":" + s2);
    LessSamePrefix(":", s1, s2);
    DecOrder(t1, t2);
    SequenceOrder(n1, n2);
  }

  lemma {:induction false} SequenceOrder(m: nat, n: nat)
    requires m <= 99999 && n <= 99999
    ensures |Padded(m, 5)| == 5 && NoColon(Padded(m, 5))
    ensures Less(Padded(m, 5), Padded(n, 5)) <==> m < n
    ensures Padded(m, 5) == Padded(n, 5) <==> m == n
  {
    assert Pow10(5) == 100000 by {
      assert Pow10(2) == 100;
      assert Pow10(3) == 1000;
    }
    PaddedIsFixed(m, 5);
    PaddedIsFixed(n, 5);
    FixedOrder(m, n, 5);
    DecDigits(m);
    forall i | 0 <= i < |Padded(m, 5)|
      ensures Padded(m, 5)[i] != ':'
    {
    }
  }

  /** All nanosecond timestamps from September 2001 to the end of the int64 range have 19 digits. */
  lemma {:induction false} NanosecondsHaveNineteenDigits(t: int)
    requires 1_000_000_000_000_000_000 <= t <= 9_223_372_036_854_775_807
    ensures |Dec(t)| == 19
  {
    assert Pow10(5) == 100000 by {
      assert Pow10(2) == 100;
      assert Pow10(3) == 1000;
    }
    assert Pow10(8) == 100_000_000 by {
      assert Pow10(6) == 1_000_000;
    }
    assert Pow10(12) == 1_000_000_000_000 by {
      assert Pow10(10) == 10_000_000_000;
    }
    assert Pow10(16) == 10_000_000_000_000_000 by {
      assert Pow10(14) == 100_000_000_000_000;
    }
    assert Pow10(18) == 1_000_000_000_000_000_000;
    DecLength(t, 19);
  }

  /** A shorter text of digits with a colon behind it, and a longer one: the colon is behind all digits,
      so the part of equal length decides. */
  lemma {:induction false} ColonsComeLast(d1: string, d2: string, x: string, y: string)
    requires |d1| < |d2| && AllDigits(d2)
    ensures Less(d1 + (":" + x), d2 + y) <==> Less(d1, d2[..|d1|])
    ensures Less(d2 + y, d1 + (":" + x)) <==> Less(d2[..|d1|], d1) || d2[..|d1|] == d1
  {
    var p, r := d2[..|d1|], d2[|d1|..] + y;
    assert d2 + y == p + r;
    assert r[0] == d2[|d1|] && IsDigit(d2[|d1|]) && (":" + x)[0] == ':';
    LessAppend(d1, p, ":" + x, r);
    LessAppend(p, d1, r, ":" + x);
  }

  /** The timestamp `t2` has `k` more digits than `t1`. Then the order of the keys is decided by the
      leading digits alone: it is the order of time exactly if `t1` is less than the leading digits
      of `t2`, and the reverse otherwise, whatever the suffixes. */
  lemma {:induction false} OrderOfUnequalDigits(vhost: string, prefix: string, cam: string,
                                                t1: nat, t2: nat, k: nat, x: string, y: string)
    requires k >= 1 && |Dec(t2)| == |Dec(t1)| + k
    ensures var k1, k2 := Key(vhost, prefix, cam, t1, Some(x)), Key(vhost, prefix, cam, t2, Some(y));
            && (Less(k1, k2) <==> t1 < t2 / Pow10(k))
            && (Less(k2, k1) <==> t2 / Pow10(k) <= t1)
  {
    var head := vhost + ":" + (prefix + ":" + (cam + ":"));
    var a, b := Dec(t1) + (":" + x), Dec(t2) + (":" + y);
    assert Key(vhost, prefix, cam, t1, Some(x)) == head + a;
    assert Key(vhost, prefix, cam, t2, Some(y)) == head + b;
    LessSamePrefix(head, a, b);
    LessSamePrefix(head, b, a);
    DecDigits(t2);
    ColonsComeLast(Dec(t1), Dec(t2), x, ":" + y);
    DecPrefix(t2, k);
    LeadingIsQuotient(t2, k);
    DecOrder(t1, Leading(t2, k));
    DecOrder(Leading(t2, k), t1);
  }

  /** So the order of keys can be wrong: 2 is before 19, but its key is behind. */
  lemma {:induction false} OrderNeedsEqualDigits(vhost: string, prefix: string, cam: string, n1: nat, n2: nat)
    ensures Less(Key(vhost, prefix, cam, 19, Some(Padded(n2, 5))), Key(vhost, prefix, cam, 2, Some(Padded(n1, 5))))
  {
    assert Pow10(0) == 1 && Pow10(1) == 10;
    assert Dec(19) == Dec(1) + [Digit(9)];
    OrderOfUnequalDigits(vhost, prefix, cam, 2, 19, 1, Padded(n1, 5), Padded(n2, 5));
  }

  // ----- collisions -----

  /** The counter after `k` calls that started from `n`. */
  function SequenceAfter(n: nat, k: nat): nat {
    if k == 0 then n else NextSequence(SequenceAfter(n, k - 1))
  }

  /** The first 99999 numbers, and then the first again. */
  lemma {:induction false} FirstSequence(k: nat)
    requires 1 <= k <= 100000
    ensures SequenceAfter(0, k) == if k == 100000 then 1 else k
  {
    SequenceClosedForm(0, k);
  }

  lemma {:induction false} SequenceClosedForm(n: nat, k: nat)
    requires n <= 99999 && k >= 1
    ensures SequenceAfter(n, k) == (n + k - 1) % 99999 + 1
    ensures 1 <= SequenceAfter(n, k) <= 99999
  {
    if k == 1 {
      assert SequenceAfter(n, 0) == n;
    } else {
      SequenceClosedForm(n, k - 1);
    }
  }

  /** The i-th key of a window of calls for one camera and one timestamp. */
  function WindowKey(c: Config, n: nat, cam: string, timestamp: int, i: nat): string {
    Key(c.vhost, c.prefix, cam, timestamp, Some(Padded(SequenceAfter(n, i + 1), 5)))
  }

  /** A colon-free field at the end is the same in equal texts, whatever is before it. */
  lemma {:induction false} LastFieldsAgree(a: string, b: string, x: string, y: string)
    requires NoColon(x) && NoColon(y)
    ensures a + ":" + x == b + ":" + y <==> a == b && x == y
  {
    var s, t := a + ":" + x, b + ":" + y;
    if s == t {
      assert s[|a|] == ':' && t[|b|] == ':';
      assert forall i :: |a| < i < |s| ==> s[i] == x[i - |a| - 1] && s[i] != ':';
      assert forall i :: |b| < i < |t| ==> t[i] == y[i - |b| - 1] && t[i] != ':';
      assert |a| == |b|;
      assert a == s[..|a|] && b == t[..|b|];
      assert x == s[|a| + 1..] && y == t[|b| + 1..];
    }
  }

  /** Keys read from the right: a suffix, a timestamp, and all the names. */
  lemma {:induction false} KeysAgree(vhost: string, prefix: string, cam1: string, t1: int, x: string,
                                     cam2: string, t2: int, y: string)
    requires NoColon(x) && NoColon(y)
    ensures Key(vhost, prefix, cam1, t1, Some(x)) == Key(vhost, prefix, cam2, t2, Some(y)) <==>
            cam1 == cam2 && t1 == t2 && x == y
  {
    var head := vhost + ":" + (prefix + ":");
    var d1, d2 := Signed(t1), Signed(t2);
    assert Key(vhost, prefix, cam1, t1, Some(x)) == head + cam1 + ":" + d1 + ":" + x;
    assert Key(vhost, prefix, cam2, t2, Some(y)) == head + cam2 + ":" + d2 + ":" + y;
    SignedHasNoColon(t1);
    SignedHasNoColon(t2);
    LastFieldsAgree(head + cam1 + ":" + d1, head + cam2 + ":" + d2, x, y);
    LastFieldsAgree(head + cam1, head + cam2, d1, d2);
    SignedInjective(t1, t2);
    assert (head + cam1)[|head|..] == cam1 && (head + cam2)[|head|..] == cam2;
  }

  /** Two calls get the same key exactly when they are for the same camera and timestamp and the number
      of calls from one to the other is a multiple of 99999. Colons make no difference here. */
  lemma {:induction false} CollideExactly(c: Config, n: nat,
                                          cam1: string, t1: int, i: nat, cam2: string, t2: int, j: nat)
    requires n <= 99999 && i < j
    ensures WindowKey(c, n, cam1, t1, i) == WindowKey(c, n, cam2, t2, j) <==>
            cam1 == cam2 && t1 == t2 && (j - i) % 99999 == 0
  {
    var s1, s2 := SequenceAfter(n, i + 1), SequenceAfter(n, j + 1);
    SequenceRepeats(n, i, j);
    SequenceOrder(s1, s2);
    SequenceOrder(s2, s1);
    KeysAgree(c.vhost, c.prefix, cam1, t1, Padded(s1, 5), cam2, t2, Padded(s2, 5));
  }

  lemma {:induction false} SequenceRepeats(n: nat, i: nat, j: nat)
    requires n <= 99999 && i < j
    ensures SequenceAfter(n, i + 1) == SequenceAfter(n, j + 1) <==> (j - i) % 99999 == 0
    ensures SequenceAfter(n, i + 1) <= 99999 && SequenceAfter(n, j + 1) <= 99999
  {
    SequenceClosedForm(n, i + 1);
    SequenceClosedForm(n, j + 1);
    assert n + (i + 1) - 1 == n + i && n + (j + 1) - 1 == n + j && (n + j) - (n + i) == j - i;
    SameRemainder(n + i, n + j);
  }

  lemma {:induction false} SameRemainder(a: nat, b: nat)
    requires a <= b
    ensures a % 99999 == b % 99999 <==> (b - a) % 99999 == 0
  {
  }

  lemma {:induction false} SuffixHasFiveDigits(n: nat, k: nat)
    requires n <= 99999 && k >= 1
    ensures 1 <= SequenceAfter(n, k) <= 99999 && |Padded(SequenceAfter(n, k), 5)| == 5
  {
    SequenceClosedForm(n, k);
    SequenceOrder(SequenceAfter(n, k), 0);
  }

  ghost predicate IsWindow(c: Config, n: nat, cam: string, timestamp: int, keys: seq<string>) {
    forall i :: 0 <= i < |keys| ==> keys[i] == WindowKey(c, n, cam, timestamp, i)
  }

  /** A window of at most 99999 keys for one camera and one timestamp has no duplicates; the key after
      a full window repeats its first. */
  lemma {:induction false} WindowIsTight(c: Config, n: nat, cam: string, timestamp: int, keys: seq<string>)
    requires n <= 99999 && IsWindow(c, n, cam, timestamp, keys)
    ensures |keys| <= 99999 <==> forall i, j :: 0 <= i < j < |keys| ==> keys[i] != keys[j]
  {
    forall i, j | 0 <= i < j < |keys| && |keys| <= MAX_SEQUENCE
      ensures keys[i] != keys[j]
    {
      CollideExactly(c, n, cam, timestamp, i, cam, timestamp, j);
    }
    if |keys| > MAX_SEQUENCE {
      CollideExactly(c, n, cam, timestamp, 0, cam, timestamp, MAX_SEQUENCE);
      assert keys[0] == keys[MAX_SEQUENCE];
    }
  }

  /** Consecutive calls for one camera and one timestamp, from any counter: their keys are pairwise
      distinct exactly when there are at most 99999 of them. */
  method GenerateWindow(kg: KeyGenerator, cam: string, timestamp: int, count: nat) returns (keys: seq<string>)
    requires kg.config.strategy.Sequence? && kg.sequence <= 99999
    modifies kg
    ensures |keys| == count && kg.sequence == SequenceAfter(old(kg.sequence), count)
    ensures IsWindow(kg.config, old(kg.sequence), cam, timestamp, keys)
    ensures count <= 99999 <==> forall i, j :: 0 <= i < j < count ==> keys[i] != keys[j]
  {
    keys := [];
    ghost var n := kg.sequence;
    for i := 0 to count
      invariant |keys| == i && kg.sequence == SequenceAfter(n, i)
      invariant IsWindow(kg.config, n, cam, timestamp, keys)
    {
      var key := kg.GenerateKey(cam, timestamp, "");
      keys := keys + [key];
    }
    WindowIsTight(kg.config, n, cam, timestamp, keys);
  }
}
