/** Validating project variables, and why every accepted list renders within its limits. */
module ProjectVariables {
  import opened Text
  import opened Ordering
  import opened EnvFiles
  import opened Variables

  const MAX_VARIABLES: nat := 256
  const MAX_KEY: nat := 128

  /** unicode.IsControl over the bytes of a UTF-8 string: C0, DEL and C1. */
  predicate HasControl(s: string) {
    exists i :: 0 <= i < |s| &&
      (s[i] < ' ' || s[i] == '\U{7F}' ||
       (s[i] == '\U{C2}' && i + 1 < |s| && '\U{80}' <= s[i + 1] <= '\U{9F}'))
  }

  predicate Escaped(c: char) {
    c == '\\' || c == '\"' || c == '$' || c == '`'
  }

  function Specials(s: string): nat {
    if s == "" then 0 else Specials(s[..|s| - 1]) + if Escaped(s[|s| - 1]) then 1 else 0
  }

  /** renderedRuntimeVariableSize. */
  method RenderedVariableSize(v: Variable) returns (size: nat)
    ensures !HasControl(v.value) ==> size == |Line(v)| + 1
  {
    size := |v.key| + |v.value| + 4;
    for i := 0 to |v.value|
      invariant size == |v.key| + |v.value| + 4 + Specials(v.value[..i])
    {
      assert v.value[..i + 1][..i] == v.value[..i];
      if v.value[i] == '\\' || v.value[i] == '\"' || v.value[i] == '$' || v.value[i] == '`' {
        size := size + 1;
      }
    }
    assert v.value[..|v.value|] == v.value;
    if !HasControl(v.value) {
      SpecialsAreEscapes(v.value);
      ReplacementsAreOneEscape(v.value);
    }
  }

  lemma {:induction false} EscapeAllAppend(a: string, b: string)
    ensures EscapeAll(a + b) == EscapeAll(a) + EscapeAll(b)
  {
    if a == "" {
      assert a + b == b;
    } else {
      assert (a + b)[1..] == a[1..] + b;
      EscapeAllAppend(a[1..], b);
    }
  }

  lemma {:induction false} SpecialsAreEscapes(s: string)
    requires !HasControl(s)
    ensures |EscapeAll(s)| == |s| + Specials(s)
  {
    if s != "" {
      var init, last := s[..|s| - 1], s[|s| - 1];
      assert !HasControl(init) by {
        assert forall i | 0 <= i < |init| :: init[i] == s[i];
      }
      SpecialsAreEscapes(init);
      EscapeAllAppend(init, [last]);
      assert s == init + [last];
      assert EscapeAll([last]) == Escape(last) + EscapeAll("");
      assert last >= ' ';
    }
  }

  // ---- the size of a file ----

  function TotalSize(vs: seq<Variable>): nat {
    if vs == [] then 0 else |Line(vs[0])| + 1 + TotalSize(vs[1..])
  }

  lemma {:induction false} JoinSize(vs: seq<Variable>)
    ensures |Join(LinesOf(vs))| == TotalSize(vs)
  {
    if vs != [] {
      assert LinesOf(vs)[1..] == LinesOf(vs[1..]);
      JoinSize(vs[1..]);
    }
  }

  lemma {:induction false} InsertSize(key: Variable -> string, v: Variable, vs: seq<Variable>)
    ensures TotalSize(Insert(key, v, vs)) == |Line(v)| + 1 + TotalSize(vs)
    decreases |vs|
  {
    if vs == [] || Leq(key(v), key(vs[0])) {
      assert ([v] + vs)[1..] == vs;
    } else {
      InsertSize(key, v, vs[1..]);
      assert ([vs[0]] + Insert(key, v, vs[1..]))[1..] == Insert(key, v, vs[1..]);
    }
  }

  lemma {:induction false} SortSize(key: Variable -> string, vs: seq<Variable>)
    ensures TotalSize(SortBy(key, vs)) == TotalSize(vs)
    decreases |vs|
  {
    if vs != [] {
      SortSize(key, vs[1..]);
      InsertSize(key, vs[0], SortBy(key, vs[1..]));
    }
  }

  lemma {:induction false} ValidOnlyAll(vs: seq<Variable>)
    requires forall i | 0 <= i < |vs| :: ValidKey(vs[i].key)
    ensures ValidOnly(vs) == vs
  {
    if vs != [] {
      ValidOnlyAll(vs[1..]);
    }
  }

  /** The summed sizes are the exact length of the rendered file, whatever the order. */
  lemma FileSize(vs: seq<Variable>)
    requires forall i | 0 <= i < |vs| :: ValidKey(vs[i].key)
    ensures |RenderEnvFile(vs)| == TotalSize(vs)
  {
    ValidOnlyAll(vs);
    SortLines(vs);
    JoinSize(SortBy(Line, vs));
    SortSize(Line, vs);
  }

  // ---- validation ----

  function Trimmed(v: Variable): Variable {
    Variable(Trim(v.key), v.value)
  }

  function TrimmedAll(vs: seq<Variable>): (r: seq<Variable>)
    ensures |r| == |vs|
  {
    seq(|vs|, i requires 0 <= i < |vs| => Trimmed(vs[i]))
  }

  predicate Reserved(key: string) {
    || (|key| >= 7 && key[..7] == "DEPLOY_")
    || key == "BLUE_DEPLOY_PORT" || key == "GREEN_DEPLOY_PORT"
    || (|key| >= 10 && key[|key| - 10..] == "_IMAGE_TAG")
  }

  /** What the checks on one variable come to; which keys and values look secret is given. */
  predicate VariableAccepted(v: Variable, secretKey: string -> bool, secretValue: string -> bool) {
    && |v.key| <= MAX_KEY && ValidKey(v.key)
    && !secretKey(v.key) && !Reserved(v.key)
    && |v.value| <= MAX_VALUE && !HasControl(v.value) && !secretValue(v.value)
  }

  predicate ListAccepted(vs: seq<Variable>, secretKey: string -> bool, secretValue: string -> bool) {
    && DistinctKeys(KeyOf, vs)
    && forall i | 0 <= i < |vs| :: VariableAccepted(vs[i], secretKey, secretValue)
  }

  predicate Accepted(variables: seq<Variable>, secretKey: string -> bool, secretValue: string -> bool) {
    && |variables| <= MAX_VARIABLES
    && ListAccepted(TrimmedAll(variables), secretKey, secretValue)
    && TotalSize(TrimmedAll(variables)) <= MAX_FILE
  }

  /** A variable by its columns: a short, well-formed key that is not the runtime's; a short, plain value. */
  predicate Allowed(v: Variable, secretKey: string -> bool, secretValue: string -> bool) {
    var key := Trim(v.key);
    && 1 <= |key| <= 128
    && ('A' <= key[0] <= 'Z' || 'a' <= key[0] <= 'z' || key[0] == '_')
    && (forall i | 0 <= i < |key| ::
          'A' <= key[i] <= 'Z' || 'a' <= key[i] <= 'z' || key[i] == '_' || '0' <= key[i] <= '9')
    && !("DEPLOY_" <= key) && key != "BLUE_DEPLOY_PORT" && key != "GREEN_DEPLOY_PORT"
    && !(|key| >= 10 && key[|key| - 10..] == "_IMAGE_TAG")
    && !secretKey(key) && |v.value| <= 8192 && !secretValue(v.value) && !HasControl(v.value)
  }

  lemma AllowedExactly(v: Variable, secretKey: string -> bool, secretValue: string -> bool)
    ensures Allowed(v, secretKey, secretValue) <==> VariableAccepted(Trimmed(v), secretKey, secretValue)
  {
    var key := Trim(v.key);
    assert "DEPLOY_" <= key <==> |key| >= 7 && key[..7] == "DEPLOY_";
  }

  lemma AcceptedByColumns(variables: seq<Variable>, secretKey: string -> bool, secretValue: string -> bool)
    ensures Accepted(variables, secretKey, secretValue) <==>
              && |variables| <= 256
              && (forall i, j | 0 <= i < j < |variables| :: Trim(variables[i].key) != Trim(variables[j].key))
              && (forall i | 0 <= i < |variables| :: Allowed(variables[i], secretKey, secretValue))
              && TotalSize(TrimmedAll(variables)) <= 65536
  {
    var all := TrimmedAll(variables);
    forall i | 0 <= i < |variables|
      ensures Allowed(variables[i], secretKey, secretValue) <==> VariableAccepted(all[i], secretKey, secretValue)
      ensures KeyOf(all[i]) == Trim(variables[i].key)
    {
      AllowedExactly(variables[i], secretKey, secretValue);
    }
    assert DistinctKeys(KeyOf, all) <==>
           forall i, j | 0 <= i < j < |variables| :: Trim(variables[i].key) != Trim(variables[j].key);
  }

  /** Each variable given is returned with its key trimmed and its value as it was, in the order of the keys. */
  ghost predicate NormalizedColumns(variables: seq<Variable>, r: seq<Variable>) {
    && |r| == |variables| && SortedBy(KeyOf, r)
    && (forall v | v in variables :: Variable(Trim(v.key), v.value) in r)
    && (forall w | w in r :: exists v :: v in variables && w == Variable(Trim(v.key), v.value))
  }

  lemma SortedColumns(variables: seq<Variable>, r: seq<Variable>)
    requires multiset(r) == multiset(TrimmedAll(variables)) && SortedBy(KeyOf, r)
    ensures NormalizedColumns(variables, r)
  {
    var all := TrimmedAll(variables);
    SameMembers(r, all);
    forall v | v in variables ensures Variable(Trim(v.key), v.value) in r {
      var i :| 0 <= i < |variables| && variables[i] == v;
      assert all[i] == Variable(Trim(v.key), v.value) && all[i] in all;
    }
    forall w | w in r ensures exists v :: v in variables && w == Variable(Trim(v.key), v.value) {
      assert w in all;
      var i :| 0 <= i < |all| && all[i] == w;
      assert variables[i] in variables && w == Variable(Trim(variables[i].key), variables[i].value);
    }
  }

  /**
    Every accepted list, sorted or not, renders without error and its file is exactly as long
    as validation counted.
   */
  lemma AcceptedRenders(vs: seq<Variable>, secretKey: string -> bool, secretValue: string -> bool)
    requires ListAccepted(vs, secretKey, secretValue) && TotalSize(vs) <= MAX_FILE
    ensures RenderRuntimeEnvFile(SortBy(KeyOf, vs)) == File(RenderEnvFile(SortBy(KeyOf, vs)))
    ensures |RenderEnvFile(SortBy(KeyOf, vs))| == TotalSize(vs)
  {
    var sorted := SortBy(KeyOf, vs);
    SortPermutes(KeyOf, vs);
    SameMembers(sorted, vs);
    forall i | 0 <= i < |sorted| ensures ValidKey(sorted[i].key) && ValidValue(sorted[i]) {
      assert sorted[i] in vs;
      NoControlNoNull(sorted[i].value);
    }
    FileSize(sorted);
    SortSize(KeyOf, vs);
  }

  lemma NoControlNoNull(s: string)
    requires !HasControl(s)
    ensures '\0' !in s
  {
  }

  lemma {:induction false} TotalSizeAppend(vs: seq<Variable>, v: Variable)
    ensures TotalSize(vs + [v]) == TotalSize(vs) + |Line(v)| + 1
  {
    if vs == [] {
      assert [] + [v] == [v];
    } else {
      assert (vs + [v])[1..] == vs[1..] + [v];
      TotalSizeAppend(vs[1..], v);
    }
  }

  ghost predicate SeenKeys(seen: set<string>, vs: seq<Variable>) {
    forall key :: key in seen <==> exists j :: 0 <= j < |vs| && vs[j].key == key
  }

  lemma SeenOneMore(seen: set<string>, vs: seq<Variable>, v: Variable)
    requires SeenKeys(seen, vs)
    ensures SeenKeys(seen + {v.key}, vs + [v])
  {
    var vs' := vs + [v];
    forall key ensures key in seen + {v.key} <==> exists j :: 0 <= j < |vs'| && vs'[j].key == key {
      if key == v.key {
        assert vs'[|vs|].key == key;
      } else if key in seen {
        var j :| 0 <= j < |vs| && vs[j].key == key;
        assert vs'[j].key == key;
      }
      if j :| 0 <= j < |vs'| && vs'[j].key == key {
        assert j < |vs| ==> vs[j].key == key;
      }
    }
  }

  lemma AcceptOneMore(
    vs: seq<Variable>, v: Variable, seen: set<string>, secretKey: string -> bool, secretValue: string -> bool)
    requires ListAccepted(vs, secretKey, secretValue) && SeenKeys(seen, vs)
    ensures ListAccepted(vs + [v], secretKey, secretValue) <==>
      VariableAccepted(v, secretKey, secretValue) && v.key !in seen
  {
    var vs' := vs + [v];
    if ListAccepted(vs', secretKey, secretValue) {
      assert VariableAccepted(vs'[|vs|], secretKey, secretValue);
      forall j | 0 <= j < |vs| ensures vs[j].key != v.key {
        assert KeyOf(vs'[j]) != KeyOf(vs'[|vs|]);
      }
    }
  }

  lemma PrefixRefused(all: seq<Variable>, n: nat, secretKey: string -> bool, secretValue: string -> bool)
    requires n <= |all| && !ListAccepted(all[..n], secretKey, secretValue)
    ensures !ListAccepted(all, secretKey, secretValue)
  {
  }

  /** What the loop keeps: the first `i` variables are acceptable, their keys seen and their sizes summed. */
  ghost predicate CheckedTo(
    all: seq<Variable>, i: nat, seen: set<string>, size: nat, secretKey: string -> bool, secretValue: string -> bool)
  {
    && i <= |all| && SeenKeys(seen, all[..i])
    && ListAccepted(all[..i], secretKey, secretValue) && size == TotalSize(all[..i])
  }

  lemma CheckedNone(all: seq<Variable>, secretKey: string -> bool, secretValue: string -> bool)
    ensures CheckedTo(all, 0, {}, 0, secretKey, secretValue)
  {
  }

  lemma CheckedAll(
    all: seq<Variable>, seen: set<string>, size: nat, secretKey: string -> bool, secretValue: string -> bool)
    requires CheckedTo(all, |all|, seen, size, secretKey, secretValue)
    ensures ListAccepted(all, secretKey, secretValue) && size == TotalSize(all)
  {
    assert all[..|all|] == all;
  }

  /** One turn of the loop: the variable is taken exactly if the list so far with it is acceptable. */
  lemma CheckedOneMore(
    all: seq<Variable>, i: nat, seen: set<string>, size: nat, secretKey: string -> bool, secretValue: string -> bool)
    requires i < |all| && CheckedTo(all, i, seen, size, secretKey, secretValue)
    ensures var v := all[i];
            if VariableAccepted(v, secretKey, secretValue) && v.key !in seen
            then CheckedTo(all, i + 1, seen + {v.key}, size + |Line(v)| + 1, secretKey, secretValue)
            else !ListAccepted(all, secretKey, secretValue)
  {
    assert all[..i + 1] == all[..i] + [all[i]];
    AcceptOneMore(all[..i], all[i], seen, secretKey, secretValue);
    SeenOneMore(seen, all[..i], all[i]);
    TotalSizeAppend(all[..i], all[i]);
    if !ListAccepted(all[..i + 1], secretKey, secretValue) {
      PrefixRefused(all, i + 1, secretKey, secretValue);
    }
  }

  /** The checks on one variable, in the order they are made, and its rendered size. */
  method CheckVariable(v: Variable, seen: set<string>, secretKey: string -> bool, secretValue: string -> bool)
    returns (ok: bool, size: nat)
    ensures ok <==> VariableAccepted(v, secretKey, secretValue) && v.key !in seen
    ensures ok ==> size == |Line(v)| + 1
  {
    if v.key == "" || |v.key| > MAX_KEY || !ValidKey(v.key) {
      return false, 0;
    }
    if v.key in seen || secretKey(v.key) || Reserved(v.key) {
      return false, 0;
    }
    if |v.value| > MAX_VALUE || HasControl(v.value) || secretValue(v.value) {
      return false, 0;
    }
    size := RenderedVariableSize(v);
    ok := true;
  }

  /** One turn of the loop over the variables. */
  method CheckNext(
    ghost all: seq<Variable>, ghost i: nat, v: Variable, normalized: seq<Variable>, seen: set<string>, size: nat,
    secretKey: string -> bool, secretValue: string -> bool)
    returns (ok: bool, normalized': seq<Variable>, seen': set<string>, size': nat)
    requires i < |all| && all[i] == v && normalized == all[..i]
    requires CheckedTo(all, i, seen, size, secretKey, secretValue)
    ensures ok ==> normalized' == all[..i + 1] && CheckedTo(all, i + 1, seen', size', secretKey, secretValue)
    ensures !ok ==> !ListAccepted(all, secretKey, secretValue)
  {
    var rendered;
    ok, rendered := CheckVariable(v, seen, secretKey, secretValue);
    CheckedOneMore(all, i, seen, size, secretKey, secretValue);
    normalized', seen', size' := normalized + [v], seen + {v.key}, size + rendered;
    assert all[..i + 1] == all[..i] + [v];
  }

  /** The loop over the variables: trimmed, checked one by one, their rendered sizes summed. */
  method CheckVariables(variables: seq<Variable>, secretKey: string -> bool, secretValue: string -> bool)
    returns (ok: bool, normalized: seq<Variable>, size: nat)
    ensures ok == ListAccepted(TrimmedAll(variables), secretKey, secretValue)
    ensures ok ==> normalized == TrimmedAll(variables) && size == TotalSize(normalized)
  {
    ghost var trimmed := TrimmedAll(variables);
    normalized, size := [], 0;
    var seen: set<string> := {};
    CheckedNone(trimmed, secretKey, secretValue);
    for i := 0 to |variables|
      invariant normalized == trimmed[..i]
      invariant CheckedTo(trimmed, i, seen, size, secretKey, secretValue)
    {
      var v := Trimmed(variables[i]);
      ok, normalized, seen, size := CheckNext(trimmed, i, v, normalized, seen, size, secretKey, secretValue);
      if !ok {
        return;
      }
    }
    CheckedAll(trimmed, seen, size, secretKey, secretValue);
    assert trimmed[..|trimmed|] == trimmed;
    ok := true;
  }

  /**
    normalizeProjectRuntimeVariables accepts exactly the lists described, and what
    it returns renders to a file of exactly the size it counted.
   */
  method Normalize(variables: seq<Variable>, secretKey: string -> bool, secretValue: string -> bool)
    returns (r: Option<seq<Variable>>)
    ensures r.Some? <==> Accepted(variables, secretKey, secretValue)
    ensures r.Some? ==>
              && multiset(r.value) == multiset(TrimmedAll(variables)) && SortedBy(KeyOf, r.value)
              && RenderRuntimeEnvFile(r.value) == File(RenderEnvFile(r.value))
              && |RenderEnvFile(r.value)| == TotalSize(TrimmedAll(variables)) <= MAX_FILE
    ensures r.Some? ==> NormalizedColumns(variables, r.value)
    ensures r.Some? <==>
              && |variables| <= 256
              && (forall i, j | 0 <= i < j < |variables| :: Trim(variables[i].key) != Trim(variables[j].key))
              && (forall i | 0 <= i < |variables| :: Allowed(variables[i], secretKey, secretValue))
              && TotalSize(TrimmedAll(variables)) <= 65536
  {
    AcceptedByColumns(variables, secretKey, secretValue);
    if |variables| > MAX_VARIABLES {
      return None;
    }
    var ok, normalized, size := CheckVariables(variables, secretKey, secretValue);
    if !ok || size > MAX_FILE {
      return None;
    }
    AcceptedRenders(normalized, secretKey, secretValue);
    SortPermutes(KeyOf, normalized);
    SortSorts(KeyOf, normalized);
    SortedColumns(variables, SortBy(KeyOf, normalized));
    return Some(SortBy(KeyOf, normalized));
  }

  /** renderEnvFile as the loop it is. */
  method WriteEnvFile(variables: seq<Variable>) returns (text: string)
    ensures text == RenderEnvFile(variables)
  {
    var lines: seq<string> := [];
    for i := 0 to |variables|
      invariant lines == LinesOf(ValidOnly(variables[..i]))
    {
      LinesOneMore(variables, i);
      if ValidKey(variables[i].key) {
        lines := lines + [Line(variables[i])];
      }
    }
    assert variables[..|variables|] == variables;
    text := Join(SortBy(Itself, lines));
  }

  lemma LinesOneMore(variables: seq<Variable>, i: nat)
    requires i < |variables|
    ensures LinesOf(ValidOnly(variables[..i + 1]))
            == LinesOf(ValidOnly(variables[..i])) + if ValidKey(variables[i].key) then [Line(variables[i])] else []
  {
    assert variables[..i + 1] == variables[..i] + [variables[i]];
    ValidOnlyAppend(variables[..i], variables[i]);
  }

  lemma ValidOnlyHead(v: Variable, rest: seq<Variable>)
    ensures ValidOnly([v] + rest) == (if ValidKey(v.key) then [v] else []) + ValidOnly(rest)
  {
    assert ([v] + rest)[1..] == rest;
  }

  lemma {:induction false} ValidOnlyAppend(vs: seq<Variable>, v: Variable)
    ensures ValidOnly(vs + [v]) == ValidOnly(vs) + if ValidKey(v.key) then [v] else []
  {
    if vs == [] {
      ValidOnlyHead(v, []);
      assert [] + [v] == [v] && [v] + [] == [v];
    } else {
      assert vs == [vs[0]] + vs[1..] && vs + [v] == [vs[0]] + (vs[1..] + [v]);
      ValidOnlyHead(vs[0], vs[1..]);
      ValidOnlyHead(vs[0], vs[1..] + [v]);
      ValidOnlyAppend(vs[1..], v);
    }
  }
}
