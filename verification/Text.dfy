/** Strings as the Go program sees them: sequences of bytes, here one `char` a byte. */
module Text {

  datatype Option<+T> = None | Some(value: T)

  /** The ASCII white space that strings.TrimSpace removes. */
  predicate IsSpace(c: char) {
    c == ' ' || c == '\t' || c == '\n' || c == '\r' || c == '\U{0B}' || c == '\U{0C}'
  }

  function TrimLeft(s: string): (r: string)
    ensures |r| <= |s|
  {
    if s != [] && IsSpace(s[0]) then TrimLeft(s[1..]) else s
  }

  function TrimRight(s: string): (r: string)
    ensures |r| <= |s|
  {
    if s != [] && IsSpace(s[|s| - 1]) then TrimRight(s[..|s| - 1]) else s
  }

  function Trim(s: string): (r: string)
    ensures |r| <= |s|
  {
    TrimRight(TrimLeft(s))
  }

  /** Text without white space at either end is left alone. */
  lemma TrimKeeps(s: string)
    requires s == [] || (!IsSpace(s[0]) && !IsSpace(s[|s| - 1]))
    ensures Trim(s) == s
  {
  }

  lemma {:induction false} TrimRightEnds(s: string)
    ensures TrimRight(s) <= s
    ensures TrimRight(s) == [] || !IsSpace(TrimRight(s)[|TrimRight(s)| - 1])
  {
    if s != [] && IsSpace(s[|s| - 1]) {
      TrimRightEnds(s[..|s| - 1]);
    }
  }

  lemma {:induction false} TrimLeftEnds(s: string)
    ensures TrimLeft(s) == [] || !IsSpace(TrimLeft(s)[0])
    ensures TrimLeft(s) == s[|s| - |TrimLeft(s)|..]
  {
    if s != [] && IsSpace(s[0]) {
      TrimLeftEnds(s[1..]);
    }
  }

  /** Trimming leaves no white space at the ends, so trimming twice is trimming once. */
  lemma TrimIdempotent(s: string)
    ensures Trim(s) == [] || (!IsSpace(Trim(s)[0]) && !IsSpace(Trim(s)[|Trim(s)| - 1]))
    ensures Trim(Trim(s)) == Trim(s)
  {
    TrimLeftEnds(s);
    TrimRightEnds(TrimLeft(s));
    TrimKeeps(Trim(s));
  }

  function Count(s: string, c: char): nat {
    if s == "" then 0 else Count(s[..|s| - 1], c) + (if s[|s| - 1] == c then 1 else 0)
  }

  lemma {:induction false} CountAppend(a: string, b: string, c: char)
    ensures Count(a + b, c) == Count(a, c) + Count(b, c)
    decreases |b|
  {
    if b == "" {
      assert a + b == a;
    } else {
      assert (a + b)[..|a + b| - 1] == a + b[..|b| - 1];
      CountAppend(a, b[..|b| - 1], c);
    }
  }

  lemma CountOne(a: char, c: char)
    ensures Count([a], c) == if a == c then 1 else 0
  {
    assert [a][..0] == "";
  }

  lemma {:induction false} CountZero(s: string, c: char)
    ensures Count(s, c) == 0 <==> c !in s
    decreases |s|
  {
    if s != "" {
      CountZero(s[..|s| - 1], c);
      assert s == s[..|s| - 1] + [s[|s| - 1]];
    }
  }

  /** The characters of ASCII white space. */
  predicate Padding(s: string) {
    forall i | 0 <= i < |s| ::
      s[i] == ' ' || s[i] == '\t' || s[i] == '\n' || s[i] == '\r' || s[i] as int == 11 || s[i] as int == 12
  }

  lemma {:induction false} TrimLeftPadding(pad: string, core: string)
    requires Padding(pad) && (core == "" || !IsSpace(core[0]))
    ensures TrimLeft(pad + core) == core
  {
    if pad == "" {
      assert pad + core == core;
    } else {
      assert (pad + core)[0] == pad[0] && (pad + core)[1..] == pad[1..] + core;
      TrimLeftPadding(pad[1..], core);
    }
  }

  lemma {:induction false} TrimRightPadding(core: string, pad: string)
    requires Padding(pad) && (core == "" || !IsSpace(core[|core| - 1]))
    ensures TrimRight(core + pad) == core
    decreases |pad|
  {
    if pad == "" {
      assert core + pad == core;
    } else {
      var s := core + pad;
      assert s[|s| - 1] == pad[|pad| - 1] && s[..|s| - 1] == core + pad[..|pad| - 1];
      TrimRightPadding(core, pad[..|pad| - 1]);
    }
  }

  /** Trimming takes exactly the white space off both ends. */
  lemma TrimTakesPadding(left: string, core: string, right: string)
    requires Padding(left) && Padding(right)
    requires core != "" && !IsSpace(core[0]) && !IsSpace(core[|core| - 1])
    ensures Trim(left + core + right) == core
  {
    assert left + core + right == left + (core + right);
    TrimLeftPadding(left, core + right);
    TrimRightPadding(core, right);
  }
}
