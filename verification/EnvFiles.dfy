/** Runtime environment files: rendering, reading back, and the size promised by validation. */
module EnvFiles {
  import opened Text
  import opened Ordering
  import opened Variables

  const MAX_VALUE: nat := 8192
  const MAX_FILE: nat := 65536

  // ---- keys ----

  predicate KeyStart(c: char) {
    'A' <= c <= 'Z' || 'a' <= c <= 'z' || c == '_'
  }

  predicate KeyPart(c: char) {
    KeyStart(c) || '0' <= c <= '9'
  }

  predicate ValidKey(key: string) {
    key != "" && KeyStart(key[0]) && forall i | 0 <= i < |key| :: KeyPart(key[i])
  }

  // ---- values ----

  function ReplaceAll(s: string, old_: char, new_: string): string {
    if s == "" then "" else (if s[0] == old_ then new_ else [s[0]]) + ReplaceAll(s[1..], old_, new_)
  }

  /** quoteEnvValue: six replacements, one after the other. */
  function QuoteEnvValue(value: string): string {
    "\"" + Replacements(value) + "\""
  }

  function Replacements(value: string): string {
    var v1 := ReplaceAll(value, '\\', "\\\\");
    var v2 := ReplaceAll(v1, '\n', "\\n");
    var v3 := ReplaceAll(v2, '\r', "");
    var v4 := ReplaceAll(v3, '\"', "\\\"");
    var v5 := ReplaceAll(v4, '$', "\\$");
    ReplaceAll(v5, '`', "\\`")
  }

  /** What the replacements come to for one character. */
  function Escape(c: char): string {
    if c == '\\' then "\\\\"
    else if c == '\n' then "\\n"
    else if c == '\r' then ""
    else if c == '\"' then "\\\""
    else if c == '$' then "\\$"
    else if c == '`' then "\\`"
    else [c]
  }

  function EscapeAll(s: string): string {
    if s == "" then "" else Escape(s[0]) + EscapeAll(s[1..])
  }

  lemma {:induction false} ReplaceAllAppend(a: string, b: string, old_: char, new_: string)
    ensures ReplaceAll(a + b, old_, new_) == ReplaceAll(a, old_, new_) + ReplaceAll(b, old_, new_)
  {
    if a == "" {
      assert a + b == b;
    } else {
      var first := if a[0] == old_ then new_ else [a[0]];
      var x, y := ReplaceAll(a[1..], old_, new_), ReplaceAll(b, old_, new_);
      assert (a + b)[0] == a[0] && (a + b)[1..] == a[1..] + b;
      ReplaceAllAppend(a[1..], b, old_, new_);
      assert first + (x + y) == (first + x) + y;
    }
  }

  lemma ReplaceAllPair(x: char, y: char, rest: string, old_: char, new_: string)
    requires x != old_ && y != old_
    ensures ReplaceAll([x, y] + rest, old_, new_) == [x, y] + ReplaceAll(rest, old_, new_)
  {
    var s := [x, y] + rest;
    assert s[1..] == [y] + rest && s[1..][1..] == rest;
  }

  lemma ReplaceAllOne(x: char, rest: string, old_: char, new_: string)
    ensures ReplaceAll([x] + rest, old_, new_) == (if x == old_ then new_ else [x]) + ReplaceAll(rest, old_, new_)
  {
    assert ([x] + rest)[1..] == rest;
  }

  /** The six replacements never touch each other's output: they are one escape per character. */
  lemma {:induction false} ReplacementsAreOneEscape(value: string)
    ensures Replacements(value) == EscapeAll(value)
  {
    if value != "" {
      var c, rest := value[0], value[1..];
      ReplacementsAreOneEscape(rest);
      ReplacementsHead(c, rest);
      assert value == [c] + rest;
    }
  }

  lemma ReplacementsHead(c: char, rest: string)
    ensures Replacements([c] + rest) == Escape(c) + Replacements(rest)
  {
    var r1 := ReplaceAll(rest, '\\', "\\\\");
    var r2 := ReplaceAll(r1, '\n', "\\n");
    var r3 := ReplaceAll(r2, '\r', "");
    var r4 := ReplaceAll(r3, '\"', "\\\"");
    var r5 := ReplaceAll(r4, '$', "\\$");
    ReplaceAllOne(c, rest, '\\', "\\\\");
    if c == '\\' {
      ReplaceAllPair('\\', '\\', r1, '\n', "\\n");
      ReplaceAllPair('\\', '\\', r2, '\r', "");
      ReplaceAllPair('\\', '\\', r3, '\"', "\\\"");
      ReplaceAllPair('\\', '\\', r4, '$', "\\$");
      ReplaceAllPair('\\', '\\', r5, '`', "\\`");
    } else {
      ReplaceAllOne(c, r1, '\n', "\\n");
      if c == '\n' {
        ReplaceAllPair('\\', 'n', r2, '\r', "");
        ReplaceAllPair('\\', 'n', r3, '\"', "\\\"");
        ReplaceAllPair('\\', 'n', r4, '$', "\\$");
        ReplaceAllPair('\\', 'n', r5, '`', "\\`");
      } else {
        ReplaceAllOne(c, r2, '\r', "");
        if c == '\r' {
          assert "" + r3 == r3 && "" + Replacements(rest) == Replacements(rest);
        } else {
          ReplaceAllOne(c, r3, '\"', "\\\"");
          if c == '\"' {
            ReplaceAllPair('\\', '\"', r4, '$', "\\$");
            ReplaceAllPair('\\', '\"', r5, '`', "\\`");
          } else {
            ReplaceAllOne(c, r4, '$', "\\$");
            if c == '$' {
              ReplaceAllPair('\\', '$', r5, '`', "\\`");
            } else {
              ReplaceAllOne(c, r5, '`', "\\`");
            }
          }
        }
      }
    }
  }

  // ---- reading a value back ----

  /**
    The double-quoted syntax: a backslash gives the next character, `\n` a newline; a bare
    quote, dollar or newline ends it.
   */
  function Unescape(s: string): Option<string> {
    if s == "" then Some("")
    else if s[0] == '\\' then
      if |s| == 1 then None
      else
        var rest := Unescape(s[2..]);
        if rest.None? then None else Some([if s[1] == 'n' then '\n' else s[1]] + rest.value)
    else if s[0] in "\"$`\n\r" then None
    else
      var rest := Unescape(s[1..]);
      if rest.None? then None else Some([s[0]] + rest.value)
  }

  function WithoutReturns(s: string): string {
    ReplaceAll(s, '\r', "")
  }

  lemma {:induction false} UnescapeInverts(value: string)
    ensures Unescape(EscapeAll(value)) == Some(WithoutReturns(value))
  {
    if value != "" {
      var c, rest := value[0], value[1..];
      UnescapeInverts(rest);
      UnescapeOne(c, EscapeAll(rest));
    }
  }

  lemma UnescapeOne(c: char, tail: string)
    requires Unescape(tail).Some?
    ensures Unescape(Escape(c) + tail) == Some((if c == '\r' then "" else [c]) + Unescape(tail).value)
  {
    var escaped := Escape(c) + tail;
    if c == '\r' {
      assert escaped == tail && "" + Unescape(tail).value == Unescape(tail).value;
    } else if |Escape(c)| == 2 {
      assert escaped[0] == '\\' && escaped[1] == Escape(c)[1] && escaped[2..] == tail;
    } else {
      assert escaped[0] == c && escaped[1..] == tail;
    }
  }

  lemma {:induction false} EscapedIsOneLine(value: string)
    ensures '\n' !in EscapeAll(value)
  {
    if value != "" {
      EscapedIsOneLine(value[1..]);
    }
  }

  // ---- the file ----

  function Line(v: Variable): string {
    v.key + "=" + QuoteEnvValue(v.value)
  }

  function ValidOnly(variables: seq<Variable>): seq<Variable> {
    if variables == [] then []
    else (if ValidKey(variables[0].key) then [variables[0]] else []) + ValidOnly(variables[1..])
  }

  lemma {:induction false} ValidOnlyMembers(variables: seq<Variable>, v: Variable)
    ensures v in ValidOnly(variables) <==> v in variables && ValidKey(v.key)
  {
    if variables != [] {
      ValidOnlyMembers(variables[1..], v);
      assert variables == [variables[0]] + variables[1..];
    }
  }

  function LinesOf(variables: seq<Variable>): (r: seq<string>)
    ensures |r| == |variables|
    ensures forall i | 0 <= i < |r| :: r[i] == Line(variables[i])
  {
    seq(|variables|, i requires 0 <= i < |variables| => Line(variables[i]))
  }

  /** Lines, each ended by a newline: what joining and appending one newline gives. */
  function Join(lines: seq<string>): string {
    if lines == [] then "" else lines[0] + "\n" + Join(lines[1..])
  }

  /** renderEnvFile. */
  function RenderEnvFile(variables: seq<Variable>): string {
    Join(SortBy(Itself, LinesOf(ValidOnly(variables))))
  }

  datatype Rendered = File(text: string) | Refused

  predicate ValidValue(v: Variable) {
    ValidKey(v.key) ==> '\0' !in v.value && |v.value| <= MAX_VALUE
  }

  /** renderRuntimeEnvFile. */
  function RenderRuntimeEnvFile(variables: seq<Variable>): Rendered {
    if exists i :: 0 <= i < |variables| && !ValidValue(variables[i]) then Refused
    else if |RenderEnvFile(variables)| > MAX_FILE then Refused
    else File(RenderEnvFile(variables))
  }

  /** A file is refused exactly if a variable with a valid key holds a NUL or is too long, or the file is. */
  lemma RenderRuntimeExactly(variables: seq<Variable>)
    ensures RenderRuntimeEnvFile(variables).File? <==>
              && (forall v | v in variables && ValidKey(v.key) :: '\0' !in v.value && |v.value| <= 8192)
              && |RenderEnvFile(variables)| <= 65536
    ensures RenderRuntimeEnvFile(variables).File? ==> RenderRuntimeEnvFile(variables).text == RenderEnvFile(variables)
  {
    assert (forall i | 0 <= i < |variables| :: ValidValue(variables[i])) <==>
           forall v | v in variables :: ValidValue(v);
  }

  // ---- reading a file back ----

  function UpTo(s: string, stop: char): (r: string)
    ensures |r| <= |s| && r == s[..|r|] && stop !in r
    ensures |r| < |s| ==> s[|r|] == stop
  {
    if s == "" || s[0] == stop then "" else [s[0]] + UpTo(s[1..], stop)
  }

  function SplitLines(file: string): seq<string>
    decreases |file|
  {
    if file == "" then []
    else
      var line := UpTo(file, '\n');
      if |line| == |file| then [line] else [line] + SplitLines(file[|line| + 1..])
  }

  function DecodeLine(line: string): Option<Variable> {
    var key := UpTo(line, '=');
    var rest := line[|key|..];
    if |rest| < 3 || rest[1] != '\"' || rest[|rest| - 1] != '\"' then None
    else
      var value := Unescape(rest[2..|rest| - 1]);
      if value.None? then None else Some(Variable(key, value.value))
  }

  /** Every line decoded; a later line overrides an earlier one with the same key. */
  function DecodeLines(lines: seq<string>): Option<map<string, string>> {
    if lines == [] then Some(map[])
    else
      var before, v := DecodeLines(lines[..|lines| - 1]), DecodeLine(lines[|lines| - 1]);
      if before.None? || v.None? then None else Some(before.value[v.value.key := v.value.value])
  }

  lemma {:induction false} UpToStops(a: string, stop: char, rest: string)
    requires stop !in a
    ensures UpTo(a + [stop] + rest, stop) == a
  {
    if a != "" {
      assert (a + [stop] + rest)[1..] == a[1..] + [stop] + rest;
      UpToStops(a[1..], stop, rest);
    }
  }

  lemma SplitFirst(line: string, rest: string)
    requires '\n' !in line
    ensures SplitLines(line + ['\n'] + rest) == [line] + SplitLines(rest)
  {
    var file := line + ['\n'] + rest;
    UpToStops(line, '\n', rest);
    assert file[|line| + 1..] == rest;
  }

  lemma {:induction false} SplitJoined(lines: seq<string>)
    requires forall i | 0 <= i < |lines| :: '\n' !in lines[i]
    ensures SplitLines(Join(lines)) == lines
  {
    if lines != [] {
      assert Join(lines) == lines[0] + ['\n'] + Join(lines[1..]);
      SplitFirst(lines[0], Join(lines[1..]));
      SplitJoined(lines[1..]);
      assert lines == [lines[0]] + lines[1..];
    }
  }

  lemma LineDecodes(v: Variable)
    requires ValidKey(v.key)
    ensures DecodeLine(Line(v)) == Some(Variable(v.key, WithoutReturns(v.value)))
    ensures '\n' !in Line(v)
  {
    var escaped := EscapeAll(v.value);
    ReplacementsAreOneEscape(v.value);
    UnescapeInverts(v.value);
    EscapedIsOneLine(v.value);
    KeyHolds(v.key, '=');
    KeyHolds(v.key, '\n');
    assert Line(v) == v.key + ['='] + ("\"" + escaped + "\"");
    DecodeParts(v.key, escaped);
  }

  lemma KeyHolds(key: string, c: char)
    requires ValidKey(key) && !KeyPart(c)
    ensures c !in key
  {
  }

  lemma DecodeParts(key: string, escaped: string)
    requires '=' !in key && Unescape(escaped).Some?
    ensures DecodeLine(key + ['='] + ("\"" + escaped + "\"")) == Some(Variable(key, Unescape(escaped).value))
  {
    var quoted := "\"" + escaped + "\"";
    var line := key + ['='] + quoted;
    UpToStops(key, '=', quoted);
    var rest := line[|key|..];
    assert rest == ['='] + quoted;
    assert |rest| == |escaped| + 3 && rest[1] == '\"' && rest[|rest| - 1] == '\"';
    assert rest[2..|rest| - 1] == escaped;
  }

  /** The valid variables by key, carriage returns removed. */
  ghost function Expected(variables: seq<Variable>): map<string, string>
    requires UniqueKeys(variables)
  {
    map v | v in variables && ValidKey(v.key) :: v.key := WithoutReturns(v.value)
  }

  predicate UniqueKeys(variables: seq<Variable>) {
    forall v, w | v in variables && w in variables && v.key == w.key :: v == w
  }

  // ---- sorted lines are the lines of sorted variables ----

  lemma LinesCons(v: Variable, vs: seq<Variable>)
    ensures LinesOf([v] + vs) == [Line(v)] + LinesOf(vs)
  {
  }

  lemma {:induction false} InsertLine(v: Variable, vs: seq<Variable>)
    ensures Insert(Itself, Line(v), LinesOf(vs)) == LinesOf(Insert(Line, v, vs))
    decreases |vs|
  {
    if vs == [] || Leq(Line(v), Line(vs[0])) {
      LinesCons(v, vs);
    } else {
      InsertLine(v, vs[1..]);
      assert LinesOf(vs)[1..] == LinesOf(vs[1..]);
      LinesCons(vs[0], Insert(Line, v, vs[1..]));
    }
  }

  lemma {:induction false} SortLines(vs: seq<Variable>)
    ensures SortBy(Itself, LinesOf(vs)) == LinesOf(SortBy(Line, vs))
    decreases |vs|
  {
    if vs != [] {
      assert LinesOf(vs)[1..] == LinesOf(vs[1..]);
      SortLines(vs[1..]);
      InsertLine(vs[0], SortBy(Line, vs[1..]));
    }
  }

  // ---- the round trip ----

  function Collect(vs: seq<Variable>): map<string, string> {
    if vs == [] then map[]
    else Collect(vs[..|vs| - 1])[vs[|vs| - 1].key := WithoutReturns(vs[|vs| - 1].value)]
  }

  lemma {:induction false} DecodeLinesCollect(vs: seq<Variable>)
    requires forall i | 0 <= i < |vs| :: ValidKey(vs[i].key)
    ensures DecodeLines(LinesOf(vs)) == Some(Collect(vs))
    decreases |vs|
  {
    if vs != [] {
      DecodeLinesCollect(vs[..|vs| - 1]);
      assert LinesOf(vs)[..|vs| - 1] == LinesOf(vs[..|vs| - 1]);
      LineDecodes(vs[|vs| - 1]);
    }
  }

  lemma {:induction false} CollectHas(vs: seq<Variable>)
    requires UniqueKeys(vs)
    ensures forall v | v in vs :: v.key in Collect(vs) && Collect(vs)[v.key] == WithoutReturns(v.value)
    ensures forall key | key in Collect(vs) :: exists v :: v in vs && v.key == key
    decreases |vs|
  {
    if vs != [] {
      var init, last := vs[..|vs| - 1], vs[|vs| - 1];
      assert vs == init + [last];
      CollectHas(init);
      forall key | key in Collect(vs) ensures exists v :: v in vs && v.key == key {
        if key == last.key {
          assert last in vs;
        } else {
          var v :| v in init && v.key == key;
          assert v in vs;
        }
      }
    }
  }

  /**
    Reading the rendered file back line by line gives exactly the valid variables,
    carriage returns removed, and one line for each, the lines in order.
   */
  lemma EnvFileRoundTrip(variables: seq<Variable>)
    requires UniqueKeys(variables)
    ensures DecodeLines(SplitLines(RenderEnvFile(variables))) == Some(Expected(variables))
    ensures |SplitLines(RenderEnvFile(variables))| == |ValidOnly(variables)|
    ensures SortedBy(Itself, SplitLines(RenderEnvFile(variables)))
  {
    var valid := ValidOnly(variables);
    var sorted := SortBy(Line, valid);
    forall v ensures v in valid <==> v in variables && ValidKey(v.key) {
      ValidOnlyMembers(variables, v);
    }
    SortLines(valid);
    SortSorts(Itself, LinesOf(valid));
    SortPermutes(Line, valid);
    SameMembers(sorted, valid);
    forall i | 0 <= i < |sorted| ensures ValidKey(sorted[i].key) && '\n' !in LinesOf(sorted)[i] {
      assert sorted[i] in valid;
      LineDecodes(sorted[i]);
    }
    SplitJoined(LinesOf(sorted));
    DecodeLinesCollect(sorted);
    CollectIsExpected(sorted, variables);
  }

  lemma CollectIsExpected(vs: seq<Variable>, variables: seq<Variable>)
    requires UniqueKeys(variables) && forall v :: v in vs <==> v in variables && ValidKey(v.key)
    ensures Collect(vs) == Expected(variables)
  {
    CollectHas(vs);
    assert Collect(vs).Keys == Expected(variables).Keys;
  }
}
