/** The short form of a compose port mapping: [host:][published:]container[/protocol]. */
module ComposePorts {
  import opened Text
  import EnvFiles

  // ---- the last separator ----

  /** As many closing as opening brackets of each kind. */
  predicate Balanced(s: string) {
    Count(s, '}') == Count(s, '{') && Count(s, ']') == Count(s, '[')
  }

  /** A colon with only balanced text after it. */
  predicate Separates(value: string, i: nat) {
    i < |value| && value[i] == ':' && Balanced(value[i + 1..])
  }

  ghost predicate LastSeparates(value: string, r: int) {
    (r == -1 || (0 <= r && Separates(value, r)))
    && forall i: nat | r < i < |value| :: !Separates(value, i)
  }

  lemma {:induction false} CountPrepend(c: char, s: string, d: char)
    ensures Count([c] + s, d) == (if c == d then 1 else 0) + Count(s, d)
    decreases |s|
  {
    if s == "" {
      assert ([c] + s)[..0] == "";
    } else {
      assert ([c] + s)[..|s|] == [c] + s[..|s| - 1];
      CountPrepend(c, s[..|s| - 1], d);
    }
  }

  /** Brackets seen scanning backwards over value[i..]: closing minus opening, for both kinds. */
  lemma CountsStep(value: string, i: nat)
    requires i < |value|
    ensures forall d :: Count(value[i..], d) == (if value[i] == d then 1 else 0) + Count(value[i + 1..], d)
  {
    assert value[i..] == [value[i]] + value[i + 1..];
    forall d ensures Count(value[i..], d) == (if value[i] == d then 1 else 0) + Count(value[i + 1..], d) {
      CountPrepend(value[i], value[i + 1..], d);
    }
  }

  /** lastComposePortSeparator. */
  method LastComposePortSeparator(value: string) returns (r: int)
    ensures -1 <= r < |value| && LastSeparates(value, r)
    ensures r == LastSeparator(value)
  {
    var curly, square := 0, 0;
    var index := |value| - 1;
    while index >= 0
      invariant -1 <= index < |value|
      invariant curly == Count(value[index + 1..], '}') - Count(value[index + 1..], '{')
      invariant square == Count(value[index + 1..], ']') - Count(value[index + 1..], '[')
      invariant forall i: nat | index < i < |value| :: !Separates(value, i)
    {
      CountsStep(value, index);
      match value[index] {
        case '}' => curly := curly + 1;
        case '{' => curly := curly - 1;
        case ']' => square := square + 1;
        case '[' => square := square - 1;
        case ':' =>
          if curly == 0 && square == 0 {
            LastIsUnique(value, index);
            return index;
          }
        case _ =>
      }
      index := index - 1;
    }
    LastIsUnique(value, -1);
    return -1;
  }

  /** The position of the last separator, or -1. */
  function LastSeparator(value: string): (r: int)
    ensures -1 <= r < |value|
  {
    SeparatorBelow(value, |value|)
  }

  function SeparatorBelow(value: string, n: nat): (r: int)
    requires n <= |value|
    ensures -1 <= r < n
  {
    if n == 0 then -1 else if Separates(value, n - 1) then n - 1 else SeparatorBelow(value, n - 1)
  }

  lemma {:induction false} SeparatorBelowIsLast(value: string, n: nat)
    requires n <= |value| && forall i: nat | n <= i < |value| :: !Separates(value, i)
    ensures LastSeparates(value, SeparatorBelow(value, n))
  {
    if n > 0 && !Separates(value, n - 1) {
      SeparatorBelowIsLast(value, n - 1);
    }
  }

  /** There is one last separator, and LastSeparator finds it. */
  lemma LastIsUnique(value: string, a: int)
    requires -1 <= a < |value| && LastSeparates(value, a)
    ensures a == LastSeparator(value)
  {
    SeparatorBelowIsLast(value, |value|);
  }

  // ---- numbers ----

  predicate Digit(c: char) {
    '0' <= c <= '9'
  }

  /** The number a run of digits stands for. */
  function Digits(s: string): Option<nat> {
    if s == "" || !Digit(s[|s| - 1]) then None
    else
      var last := (s[|s| - 1] - '0') as nat;
      if |s| == 1 then Some(last)
      else match Digits(s[..|s| - 1]) case None => None case Some(n) => Some(10 * n + last)
  }

  /** strconv.Atoi: an optional sign and digits. Numbers too long for an int are refused by the port range too. */
  function Atoi(s: string): Option<int> {
    if s != "" && s[0] == '-' then
      match Digits(s[1..]) case None => None case Some(n) => Some(0 - n)
    else match Digits(if s != "" && s[0] == '+' then s[1..] else s) case None => None case Some(n) => Some(n)
  }

  /** Decimal notation. */
  function Decimal(n: nat): (s: string)
    ensures s != "" && forall i | 0 <= i < |s| :: Digit(s[i])
  {
    (if n < 10 then "" else Decimal(n / 10)) + [(n % 10) as char + '0']
  }

  lemma {:induction false} DecimalReads(n: nat)
    ensures Digits(Decimal(n)) == Some(n) && Atoi(Decimal(n)) == Some(n)
  {
    var s := Decimal(n);
    if n >= 10 {
      DecimalReads(n / 10);
      assert s[..|s| - 1] == Decimal(n / 10);
    }
    assert Digit(s[0]);
  }

  /** A sign in front is read, too. */
  lemma AtoiReadsSigns(n: nat)
    ensures Atoi("+" + Decimal(n)) == Some(n as int) && Atoi("-" + Decimal(n)) == Some(0 - n)
  {
    DecimalReads(n);
    var plus, minus := "+" + Decimal(n), "-" + Decimal(n);
    assert plus[1..] == Decimal(n) && minus[1..] == Decimal(n);
  }

  predicate IsPort(n: int) {
    1 <= n <= 65535
  }

  // ---- the published part ----

  datatype Published =
    | Number(port: int)
    | Bare(name: string)
    | Braced(name: string)
    | Defaulted(name: string, port: int)

  predicate WellFormed(p: Published) {
    match p
    case Number(port) => IsPort(port)
    case Bare(name) => EnvFiles.ValidKey(name)
    case Braced(name) => EnvFiles.ValidKey(name)
    case Defaulted(name, port) => EnvFiles.ValidKey(name) && IsPort(port)
  }

  function ShowPublished(p: Published): string
    requires WellFormed(p)
  {
    match p
    case Number(port) => Decimal(port)
    case Bare(name) => "$" + name
    case Braced(name) => "${" + name + "}"
    case Defaulted(name, port) => "${" + name + ":-" + Decimal(port) + "}"
  }

  /** A published port as stored: a number (0 for none) and a variable name ("" for none). */
  datatype Target = Target(port: int, variable: string)

  function Meaning(p: Published): Target {
    match p
    case Number(port) => Target(port, "")
    case Bare(name) => Target(0, name)
    case Braced(name) => Target(0, name)
    case Defaulted(name, port) => Target(port, name)
  }

  /** strings.Cut at the first ":-". */
  function Cut(s: string): (r: (string, string)) {
    if |s| < 2 then (s, "")
    else if s[0] == ':' && s[1] == '-' then ("", s[2..])
    else var (a, b) := Cut(s[1..]); ([s[0]] + a, b)
  }

  /** Variable and fallback, before either is checked. */
  function Parts(value: string): (string, string) {
    if |value| >= 2 && value[0] == '$' && value[1] == '{' && value[|value| - 1] == '}' then Cut(Contents(value))
    else if value != "" && value[0] == '$' then (value[1..], "")
    else ("", value)
  }

  /** The text between the braces; "${" without more cannot end in a brace. */
  function Contents(value: string): string
    requires |value| >= 2 && value[1] == '{' && value[|value| - 1] == '}'
  {
    value[2..|value| - 1]
  }

  /** composePublishedPort. */
  function ComposePublishedPort(text: string): (r: Option<Target>)
    ensures r.Some? ==> (r.value.variable == "" || EnvFiles.ValidKey(r.value.variable))
    ensures r.Some? ==> IsPort(r.value.port) || (r.value.port == 0 && r.value.variable != "")
  {
    var (variable, fallback) := Parts(Trim(text));
    if variable != "" && !EnvFiles.ValidKey(variable) then None
    else if fallback == "" then (if variable != "" then Some(Target(0, variable)) else None)
    else match Atoi(fallback)
      case None => None
      case Some(port) => if IsPort(port) then Some(Target(port, variable)) else None
  }

  lemma {:induction false} CutAtKey(name: string, rest: string)
    requires forall i | 0 <= i < |name| :: EnvFiles.KeyPart(name[i])
    ensures Cut(name + ":-" + rest) == (name, rest) && Cut(name) == (name, "")
    decreases |name|
  {
    if name == "" {
      assert name + ":-" + rest == ":-" + rest;
      assert (":-" + rest)[2..] == rest;
    } else {
      var s := name + ":-" + rest;
      assert s[0] == name[0] && s[1..] == name[1..] + ":-" + rest;
      CutAtKey(name[1..], rest);
      assert [name[0]] + name[1..] == name;
    }
  }

  lemma PartsOfPublished(p: Published)
    requires WellFormed(p)
    ensures Parts(ShowPublished(p))
            == match p
               case Number(port) => ("", Decimal(port))
               case Bare(name) => (name, "")
               case Braced(name) => (name, "")
               case Defaulted(name, port) => (name, Decimal(port))
  {
    var s := ShowPublished(p);
    match p {
      case Number(port) => assert Digit(s[0]);
      case Bare(name) => assert s[1] == name[0] && s[1..] == name;
      case Braced(name) =>
        assert Contents(s) == name;
        CutAtKey(name, "");
      case Defaulted(name, port) =>
        assert Contents(s) == name + ":-" + Decimal(port);
        CutAtKey(name, Decimal(port));
    }
  }

  lemma PublishedIsTrimmed(p: Published)
    requires WellFormed(p)
    ensures Trim(ShowPublished(p)) == ShowPublished(p)
  {
    var s := ShowPublished(p);
    match p {
      case Number(port) => assert Digit(s[0]) && Digit(s[|s| - 1]);
      case Bare(name) => assert s[|s| - 1] == name[|name| - 1] && EnvFiles.KeyPart(name[|name| - 1]);
      case _ => assert s[0] == '$' && s[|s| - 1] == '}';
    }
    TrimKeeps(s);
  }

  /** Each of the four ways to write a published port is read as what it means. */
  lemma PublishedRoundTrip(p: Published)
    requires WellFormed(p)
    ensures ComposePublishedPort(ShowPublished(p)) == Some(Meaning(p))
  {
    PublishedIsTrimmed(p);
    PartsOfPublished(p);
    match p {
      case Number(port) => DecimalReads(port);
      case Defaulted(_, port) => DecimalReads(port);
      case _ =>
    }
  }

  // ---- the whole mapping ----

  /** The last slash, or -1. */
  function LastSlash(s: string): (r: int)
    ensures -1 <= r < |s|
  {
    if s == "" then -1 else if s[|s| - 1] == '/' then |s| - 1 else LastSlash(s[..|s| - 1])
  }

  /** splitComposePort: the container part, and the published part without any host, if there is one. */
  function SplitComposePort(value: string): (string, Option<string>) {
    var separator := LastSeparator(value);
    if separator < 0 then (value, None)
    else
      var prefix := value[..separator];
      var before := LastSeparator(prefix);
      (value[separator + 1..], Some(if before >= 0 then prefix[before + 1..] else prefix))
  }

  datatype Port = Port(container: int, published: Target, protocol: string)

  const Unpublished := Target(0, "")

  /** composePort on a scalar node. */
  function ComposePort(text: string): (r: Option<Port>)
    ensures r.Some? ==> IsPort(r.value.container)
    ensures r.Some? && LastSlash(text) >= 0 ==> r.value.protocol == text[LastSlash(text) + 1..]
    ensures r.Some? && LastSlash(text) < 0 ==> r.value.protocol == ""
  {
    var slash := LastSlash(text);
    var protocol := if slash >= 0 then text[slash + 1..] else "";
    var (container, published) := SplitComposePort(if slash >= 0 then text[..slash] else text);
    PortFrom(container, published, protocol)
  }

  function PortFrom(container: string, published: Option<string>, protocol: string): (r: Option<Port>)
    ensures r.Some? ==> IsPort(r.value.container) && r.value.protocol == protocol
  {
    match Atoi(container)
    case None => None
    case Some(port) =>
      if !IsPort(port) then None
      else if published.None? then Some(Port(port, Unpublished, protocol))
      else match ComposePublishedPort(published.value)
        case None => None
        case Some(target) => Some(Port(port, target, protocol))
  }

  /** A mapping by its parts; a host, of any text at all, comes only with a published port. */
  datatype Mapping =
    | Exposed(container: int, protocol: Option<string>)
    | Mapped(host: Option<string>, published: Published, container: int, protocol: Option<string>)

  predicate Sound(m: Mapping) {
    IsPort(m.container) && (m.Mapped? ==> WellFormed(m.published))
  }

  function ShowPorts(m: Mapping): string
    requires Sound(m)
  {
    match m
    case Exposed(container, _) => Decimal(container)
    case Mapped(host, published, container, _) =>
      (if host.Some? then host.value + ":" else "") + ShowPublished(published) + ":" + Decimal(container)
  }

  function Show(m: Mapping): string
    requires Sound(m)
  {
    ShowPorts(m) + if m.protocol.Some? then "/" + m.protocol.value else ""
  }

  function PortOf(m: Mapping): Port {
    Port(m.container, if m.Mapped? then Meaning(m.published) else Unpublished,
         if m.protocol.Some? then m.protocol.value else "")
  }

  /** Text of key characters and digits, which holds no bracket, colon or slash. */
  predicate Tame(s: string) {
    forall i | 0 <= i < |s| :: EnvFiles.KeyPart(s[i])
  }

  lemma {:induction false} TameCounts(s: string, c: char)
    requires Tame(s) && !EnvFiles.KeyPart(c)
    ensures Count(s, c) == 0
    decreases |s|
  {
    if s != "" {
      TameCounts(s[..|s| - 1], c);
    }
  }

  lemma TameDecimal(n: nat)
    ensures Tame(Decimal(n))
  {
    forall i | 0 <= i < |Decimal(n)| ensures EnvFiles.KeyPart(Decimal(n)[i]) {
      assert Digit(Decimal(n)[i]);
    }
  }

  /** Nothing in this text separates, and as a whole it is balanced: what a part of a mapping must be. */
  ghost predicate Whole(s: string) {
    Balanced(s) && forall i: nat | i < |s| :: !Separates(s, i)
  }

  lemma TameIsWhole(s: string)
    requires Tame(s)
    ensures Whole(s)
  {
    TameCounts(s, '{');
    TameCounts(s, '}');
    TameCounts(s, '[');
    TameCounts(s, ']');
    forall i: nat | i < |s| ensures !Separates(s, i) {
      assert EnvFiles.KeyPart(s[i]);
    }
  }

  /** A reference in braces is whole: a colon inside has the closing brace, and no opening one, after it. */
  lemma BracedIsWhole(name: string, fallback: string)
    requires Tame(name) && (fallback == "" || (|fallback| >= 2 && fallback[..2] == ":-" && Tame(fallback[2..])))
    ensures Whole("${" + name + fallback + "}")
  {
    var tail := fallback + "}";
    var s := "${" + name + tail;
    assert s == "${" + name + fallback + "}";
    forall c | c == '{' || c == '}' || c == '[' || c == ']'
      ensures Count(fallback, c) == 0 && Count(s, c) == if c == '{' || c == '}' then 1 else 0
    {
      TameCounts(name, c);
      if fallback != "" {
        assert fallback == ":-" + fallback[2..];
        CountAppend(":-", fallback[2..], c);
        CountLiteral(':', '-', c);
        TameCounts(fallback[2..], c);
      }
      CountAppend(fallback, "}", c);
      CountAppend("${" + name, tail, c);
      CountAppend("${", name, c);
      CountLiteral('$', '{', c);
      CountOne('}', c);
    }
    forall i: nat | i < |s| ensures !Separates(s, i) {
      if s[i] == ':' {
        ColonInTail(name, fallback, i);
      }
    }
  }

  lemma CountLiteral(a: char, b: char, c: char)
    ensures Count([a, b], c) == (if a == c then 1 else 0) + (if b == c then 1 else 0)
  {
    assert [a, b][..1] == [a];
    CountOne(a, c);
  }

  lemma ColonInTail(name: string, fallback: string, i: nat)
    requires Tame(name) && (fallback == "" || (|fallback| >= 2 && fallback[..2] == ":-" && Tame(fallback[2..])))
    requires var s := "${" + name + (fallback + "}"); i < |s| && s[i] == ':'
    ensures Count(("${" + name + (fallback + "}"))[i + 1..], '}') == 1
    ensures Count(("${" + name + (fallback + "}"))[i + 1..], '{') == 0
  {
    var s := "${" + name + (fallback + "}");
    var at := |name| + 2;
    forall k | 0 <= k < |s| && k != at ensures s[k] != ':' {
      if 2 <= k < at {
        assert s[k] == name[k - 2] && EnvFiles.KeyPart(name[k - 2]);
      } else if at + 1 < k < at + |fallback| {
        assert s[k] == fallback[2..][k - at - 2] && EnvFiles.KeyPart(fallback[2..][k - at - 2]);
      } else if at < k < at + |fallback| {
        assert s[k] == fallback[..2][1];
      }
    }
    assert i == at && fallback != "";
    assert s[i + 1..] == "-" + fallback[2..] + "}";
    var rest := s[i + 1..];
    forall c | c == '{' || c == '}' ensures Count(rest, c) == if c == '}' then 1 else 0 {
      CountAppend("-" + fallback[2..], "}", c);
      CountAppend("-", fallback[2..], c);
      TameCounts(fallback[2..], c);
      CountOne('-', c);
      CountOne('}', c);
    }
  }

  lemma PublishedIsWhole(p: Published)
    requires WellFormed(p)
    ensures Whole(ShowPublished(p))
  {
    match p {
      case Number(port) =>
        TameDecimal(port);
        TameIsWhole(Decimal(port));
      case Bare(name) => BareIsWhole(name);
      case Braced(name) =>
        BracedIsWhole(name, "");
        assert "${" + name + "" + "}" == "${" + name + "}";
      case Defaulted(name, port) => DefaultedIsWhole(name, port);
    }
  }

  lemma DefaultedIsWhole(name: string, port: nat)
    requires Tame(name)
    ensures Whole("${" + name + ":-" + Decimal(port) + "}")
  {
    TameDecimal(port);
    var fallback := ":-" + Decimal(port);
    assert fallback[..2] == ":-" && fallback[2..] == Decimal(port);
    BracedIsWhole(name, fallback);
    assert "${" + name + fallback + "}" == "${" + name + ":-" + Decimal(port) + "}";
  }

  lemma TameHasNoSlash(s: string)
    requires Tame(s)
    ensures '/' !in s
  {
    forall i | 0 <= i < |s| ensures s[i] != '/' {
      assert EnvFiles.KeyPart(s[i]);
    }
  }

  lemma PublishedHasNoSlash(p: Published)
    requires WellFormed(p)
    ensures '/' !in ShowPublished(p)
  {
    if p.Number? || p.Defaulted? {
      TameDecimal(p.port);
      TameHasNoSlash(Decimal(p.port));
    }
    if !p.Number? {
      TameHasNoSlash(p.name);
    }
  }

  lemma BareIsWhole(name: string)
    requires Tame(name)
    ensures Whole("$" + name)
  {
    var s := "$" + name;
    forall c | !EnvFiles.KeyPart(c) && c != '$' ensures Count(s, c) == 0 {
      CountAppend("$", name, c);
      CountOne('$', c);
      TameCounts(name, c);
    }
    forall i: nat | i < |s| ensures !Separates(s, i) {
      assert i > 0 ==> s[i] == name[i - 1] && EnvFiles.KeyPart(name[i - 1]);
    }
  }

  /** The colon before a whole part is the last separator, whatever stands in front of it. */
  lemma SeparatorBeforeWhole(prefix: string, part: string)
    requires Whole(part)
    ensures LastSeparator(prefix + ":" + part) == |prefix|
    ensures LastSeparator(part) == -1
  {
    var value := prefix + ":" + part;
    assert value[|prefix| + 1..] == part;
    assert Separates(value, |prefix|);
    forall i: nat | |prefix| < i < |value| ensures !Separates(value, i) {
      var k: nat := i - |prefix| - 1;
      assert value[i] == part[k] && value[i + 1..] == part[k + 1..];
      assert !Separates(part, k);
    }
    LastIsUnique(value, |prefix|);
    LastIsUnique(part, -1);
  }

  function PublishedText(m: Mapping): Option<string>
    requires Sound(m)
  {
    if m.Mapped? then Some(ShowPublished(m.published)) else None
  }

  lemma PublishedTextReads(m: Mapping)
    requires Sound(m)
    ensures if PublishedText(m).Some? then ComposePublishedPort(PublishedText(m).value) == Some(PortOf(m).published)
            else PortOf(m).published == Unpublished
  {
    if m.Mapped? {
      PublishedRoundTrip(m.published);
    }
  }

  lemma SplitWhole(prefix: string, part: string)
    requires Whole(part)
    ensures var separator := LastSeparator(prefix);
            SplitComposePort(prefix + ":" + part) == (part, Some(if separator >= 0
              then prefix[separator + 1..] else prefix))
    ensures SplitComposePort(part) == (part, None)
  {
    var value := prefix + ":" + part;
    SeparatorBeforeWhole(prefix, part);
    assert value[..|prefix|] == prefix && value[|prefix| + 1..] == part;
  }

  lemma PortsSplit(m: Mapping)
    requires Sound(m)
    ensures SplitComposePort(ShowPorts(m)) == (Decimal(m.container), PublishedText(m))
  {
    var container := Decimal(m.container);
    TameDecimal(m.container);
    TameIsWhole(container);
    if m.Mapped? {
      MappedSplit(m.host, ShowPublished(m.published), container, m.published);
    } else {
      SplitWhole("", container);
    }
  }

  lemma MappedSplit(host: Option<string>, shown: string, container: string, p: Published)
    requires WellFormed(p) && shown == ShowPublished(p) && Whole(container)
    ensures SplitComposePort((if host.Some?
      then host.value + ":" else "") + shown + ":" + container) == (container, Some(shown))
  {
    var prefix := (if host.Some? then host.value + ":" else "") + shown;
    SplitWhole(prefix, container);
    PublishedIsWhole(p);
    if host.Some? {
      SeparatorBeforeWhole(host.value, shown);
      assert prefix == host.value + ":" + shown;
      assert prefix[|host.value| + 1..] == shown;
    } else {
      SeparatorBeforeWhole("", shown);
      assert prefix == shown;
    }
  }

  /** The slashes of a mapping's ports are the host's. */
  predicate SlashInHost(m: Mapping) {
    m.Mapped? && m.host.Some? && '/' in m.host.value
  }

  lemma SlashesOfPorts(m: Mapping)
    requires Sound(m)
    ensures '/' in ShowPorts(m) <==> SlashInHost(m)
    ensures ShowPorts(m)[|ShowPorts(m)| - 1] != '/'
  {
    var s := ShowPorts(m);
    TameDecimal(m.container);
    assert s[|s| - 1] == Decimal(m.container)[|Decimal(m.container)| - 1];
    assert EnvFiles.KeyPart(s[|s| - 1]);
    if m.Mapped? {
      PublishedHasNoSlash(m.published);
    }
    TameHasNoSlash(Decimal(m.container));
  }

  lemma LastSlashAt(a: string, b: string, s: string)
    requires '/' !in b && s == a + ['/'] + b
    ensures LastSlash(s) == |a|
  {
    assert s[|a|] == '/' && s[|a| + 1..] == b;
    forall i | |a| < i < |s| ensures s[i] != '/' {
      assert s[i] == s[|a| + 1..][i - |a| - 1];
      assert s[i] in b;
    }
    LastSlashIs(s, |a|);
  }

  lemma LastSlashIs(s: string, r: nat)
    requires r < |s| && s[r] == '/' && forall i | r < i < |s| :: s[i] != '/'
    ensures LastSlash(s) == r
  {
    LastSlashMeans(s);
  }

  lemma {:induction false} LastSlashMeans(s: string)
    ensures var r := LastSlash(s); (r >= 0 ==> s[r] == '/') && forall i | r < i < |s| :: s[i] != '/'
    decreases |s|
  {
    if s != "" && s[|s| - 1] != '/' {
      LastSlashMeans(s[..|s| - 1]);
    }
  }

  /** A slash is unambiguous: it is not in the protocol, nor, without a protocol, in the host. */
  predicate Unambiguous(m: Mapping) {
    if m.protocol.Some? then '/' !in m.protocol.value else !SlashInHost(m)
  }

  /** The parts of a mapping's text: its ports and its protocol. */
  lemma SlashFound(m: Mapping)
    requires Sound(m) && Unambiguous(m)
    ensures var text, slash := Show(m), LastSlash(Show(m));
            if m.protocol.Some? then slash == |ShowPorts(m)| && text[..slash] == ShowPorts(m)
              && text[slash + 1..] == m.protocol.value
            else slash == -1 && text == ShowPorts(m)
  {
    var ports, text := ShowPorts(m), Show(m);
    if m.protocol.Some? {
      assert text == ports + ['/'] + m.protocol.value;
      LastSlashAt(ports, m.protocol.value, text);
    } else {
      assert text == ports;
      SlashesOfPorts(m);
      LastSlashMeans(text);
    }
  }

  lemma PartsRead(m: Mapping, protocol: string)
    requires Sound(m)
    ensures PortFrom(Decimal(m.container), PublishedText(m), protocol) == Some(PortOf(m).(protocol := protocol))
  {
    DecimalReads(m.container);
    PublishedTextReads(m);
  }

  lemma HalvesRead(text: string, ports: string, protocol: string)
    requires if LastSlash(text) >= 0 then ports == text[..LastSlash(text)] && protocol == text[LastSlash(text) + 1..]
             else ports == text && protocol == ""
    ensures ComposePort(text) == PortFrom(SplitComposePort(ports).0, SplitComposePort(ports).1, protocol)
  {
  }

  lemma UnambiguousReads(m: Mapping)
    requires Sound(m) && Unambiguous(m)
    ensures ComposePort(Show(m)) == Some(PortOf(m))
  {
    SlashFound(m);
    PortsSplit(m);
    PartsRead(m, PortOf(m).protocol);
    HalvesRead(Show(m), ShowPorts(m), PortOf(m).protocol);
  }

  /** Reading a mapping written from its parts gives those parts back, exactly when its slashes are unambiguous. */
  lemma MappingRoundTrip(m: Mapping)
    requires Sound(m)
    ensures ComposePort(Show(m)) == Some(PortOf(m)) <==> Unambiguous(m)
  {
    if Unambiguous(m) {
      UnambiguousReads(m);
    } else if m.protocol.Some? {
      SlashInProtocolMisreads(m);
    } else {
      SlashInHostMisreads(m);
    }
  }

  /** A slash in the host is taken for the start of a protocol. */
  lemma SlashInHostMisreads(m: Mapping)
    requires Sound(m) && m.protocol.None? && SlashInHost(m)
    ensures ComposePort(Show(m)) != Some(PortOf(m))
  {
    var text := Show(m);
    assert text == ShowPorts(m);
    SlashesOfPorts(m);
    LastSlashMeans(text);
    assert 0 <= LastSlash(text) < |text| - 1;
    assert |text[LastSlash(text) + 1..]| > 0;
  }

  /** Only what follows the last slash is taken for the protocol. */
  lemma SlashInProtocolMisreads(m: Mapping)
    requires Sound(m) && m.protocol.Some? && '/' in m.protocol.value
    ensures ComposePort(Show(m)) != Some(PortOf(m))
  {
    var text, ports, protocol := Show(m), ShowPorts(m), m.protocol.value;
    var k :| 0 <= k < |protocol| && protocol[k] == '/';
    assert text == ports + ['/'] + protocol;
    assert text[|ports| + 1 + k] == '/';
    LastSlashMeans(text);
    assert |text[LastSlash(text) + 1..]| < |protocol|;
  }

  lemma PublishedRange(text: string, n: nat)
    requires text != "" && Trim(text) == text && text[0] != '$' && Atoi(text) == Some(n)
    ensures ComposePublishedPort(text).Some? <==> 1 <= n <= 65535
  {
    assert Parts(text) == ("", text);
  }

  lemma ContainerRange(text: string, n: nat)
    requires Whole(text) && '/' !in text && Atoi(text) == Some(n)
    ensures ComposePort(text).Some? <==> 1 <= n <= 65535
  {
    LastSlashMeans(text);
    SplitWhole("", text);
    HalvesRead(text, text, "");
  }

  /** A port on its own is accepted exactly from 1 to 65535, as a container port and as a published one. */
  lemma PortRangeExactly(n: nat)
    ensures ComposePort(Decimal(n)).Some? <==> 1 <= n <= 65535
    ensures ComposePublishedPort(Decimal(n)).Some? <==> 1 <= n <= 65535
  {
    var text := Decimal(n);
    DecimalReads(n);
    assert Digit(text[0]) && Digit(text[|text| - 1]);
    TrimKeeps(text);
    PublishedRange(text, n);
    TameDecimal(n);
    TameIsWhole(Decimal(n));
    TameHasNoSlash(Decimal(n));
    ContainerRange(Decimal(n), n);
  }
}
