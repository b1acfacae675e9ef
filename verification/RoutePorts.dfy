/** routePorts: the port pairs and port variables that an application's proxy routes ask for. */
module RoutePorts {
  import opened Text
  import opened Ordering
  import EnvFiles

  /** A compose service and its container port. */
  datatype Service = Service(name: string, port: int)

  /**
   * A proxy route row. `blue` and `green` are the ports of its two upstream URLs, "" where the URL
   * is absent, unreadable or has no port. `service` is given when both of its columns are.
   */
  datatype Row = Row(blue: string, green: string, variable: Option<string>, service: Option<Service>)

  datatype PortVariable = PortVariable(name: string, blue: string, green: string, service: Option<Service>)

  datatype Pair = Pair(blue: string, green: string)

  datatype Error = InvalidName(name: string) | ConflictingPairs(name: string)

  datatype Ports = Ports(main: Pair, variables: seq<PortVariable>) | Refused(error: Error)

  function NameOf(v: PortVariable): string {
    v.name
  }

  predicate Considered(row: Row) {
    row.blue != "" || row.green != ""
  }

  function PairOf(row: Row): (p: Pair)
    ensures Considered(row) ==> p.blue != "" && p.green != ""
  {
    Pair(if row.blue == "" then "3101" else row.blue, if row.green == "" then "3102" else row.green)
  }

  function Given(row: Row): string {
    if row.variable.Some? then Trim(row.variable.value) else ""
  }

  predicate NameAccepted(row: Row) {
    row.variable.Some? ==> EnvFiles.ValidKey(Given(row))
  }

  /** managedComposePortName; `middle` is the upper-cased service name, port and hash between its fixed ends. */
  function Managed(middle: Service -> string, service: Service): string {
    "DEPLOY_MANAGER_" + middle(service) + "_PORT"
  }

  /** The port variable a considered row asks for, if it names one or has a service to name it by. */
  function Entry(middle: Service -> string, row: Row): (e: Option<PortVariable>)
    ensures e.Some? ==> e.value.name != ""
  {
    var pair := PairOf(row);
    if !Considered(row) then None
    else if Given(row) != "" then Some(PortVariable(Given(row), pair.blue, pair.green, None))
    else if row.service.Some? then
      var name := Managed(middle, row.service.value);
      assert name[0] == 'D';
      Some(PortVariable(name, pair.blue, pair.green, row.service))
    else None
  }

  // ---- what the collection should be ----

  predicate Asks(middle: Service -> string, row: Row, name: string) {
    Entry(middle, row).Some? && Entry(middle, row).value.name == name
  }

  predicate Agree(middle: Service -> string, a: Row, b: Row) {
    Entry(middle, a).Some? && Asks(middle, b, Entry(middle, a).value.name) ==> PairOf(a) == PairOf(b)
  }

  /** Every considered name is valid and no name is given two different pairs. */
  ghost predicate Acceptable(middle: Service -> string, rows: seq<Row>) {
    (forall i | 0 <= i < |rows| :: Considered(rows[i]) ==> NameAccepted(rows[i]))
    && (forall i, j | 0 <= i < j < |rows| :: Agree(middle, rows[i], rows[j]))
  }

  /** Row i asks for v and no earlier row asks for the same name. */
  ghost predicate FirstAsked(middle: Service -> string, rows: seq<Row>, i: nat, v: PortVariable) {
    i < |rows| && Entry(middle, rows[i]) == Some(v)
    && forall j | 0 <= j < i :: !Asks(middle, rows[j], v.name)
  }

  predicate NamesMain(row: Row) {
    Considered(row) && Given(row) == "DEPLOY_PORT"
  }

  /** The pair of the routes that name DEPLOY_PORT; without one, of the first considered route; else 3101 and 3102. */
  ghost predicate MainPair(rows: seq<Row>, main: Pair) {
    (forall i | 0 <= i < |rows| :: NamesMain(rows[i]) ==> main == PairOf(rows[i]))
    && ((forall j | 0 <= j < |rows| :: !NamesMain(rows[j])) ==>
          (forall i | 0 <= i < |rows| && Considered(rows[i]) && (forall j | 0 <= j < i :: !Considered(rows[j])) ::
             main == PairOf(rows[i]))
          && ((forall j | 0 <= j < |rows| :: !Considered(rows[j])) ==> main == Pair("3101", "3102")))
  }

  ghost predicate Lists(middle: Service -> string, rows: seq<Row>, variables: seq<PortVariable>) {
    SortedBy(NameOf, variables) && DistinctKeys(NameOf, variables)
    && forall v :: v in variables <==> exists i: nat :: FirstAsked(middle, rows, i, v)
  }

  /** The first row that cannot be taken is reported, a bad name before a conflict. */
  ghost predicate Offends(middle: Service -> string, rows: seq<Row>, i: nat, error: Error) {
    i < |rows| && Acceptable(middle, rows[..i]) && Considered(rows[i])
    && match error
       case InvalidName(name) => !NameAccepted(rows[i]) && name == Given(rows[i])
       case ConflictingPairs(name) =>
         NameAccepted(rows[i]) && Asks(middle, rows[i], name)
         && exists j | 0 <= j < i :: !Agree(middle, rows[j], rows[i])
  }

  ghost predicate Collected(middle: Service -> string, rows: seq<Row>, r: Ports) {
    match r
    case Ports(main, variables) => Acceptable(middle, rows) && MainPair(rows, main) && Lists(middle, rows, variables)
    case Refused(error) => !Acceptable(middle, rows) && exists i: nat :: Offends(middle, rows, i, error)
  }

  // ---- the loop ----

  /** `seen` holds, for each name asked for, the first variable asked for under it. */
  ghost predicate Seen(middle: Service -> string, rows: seq<Row>, seen: map<string, PortVariable>) {
    forall v: PortVariable :: Holds(seen, v) <==> exists i: nat :: FirstAsked(middle, rows, i, v)
  }

  predicate Holds(seen: map<string, PortVariable>, v: PortVariable) {
    v.name in seen && seen[v.name] == v
  }

  predicate Named(seen: map<string, PortVariable>) {
    forall n | n in seen :: seen[n].name == n
  }

  lemma {:induction false} SomeFirst(middle: Service -> string, rows: seq<Row>, j: nat, name: string) returns (i: nat)
    requires j < |rows| && Asks(middle, rows[j], name)
    ensures i <= j && Asks(middle, rows[i], name) && FirstAsked(middle, rows, i, Entry(middle, rows[i]).value)
    decreases j
  {
    if k :| 0 <= k < j && Asks(middle, rows[k], name) {
      i := SomeFirst(middle, rows, k, name);
    } else {
      i := j;
    }
  }

  lemma FirstAskedOneMore(middle: Service -> string, done: seq<Row>, row: Row, i: nat, v: PortVariable)
    ensures FirstAsked(middle, done + [row], i, v) <==>
            FirstAsked(middle, done, i, v)
            || (i == |done| && Entry(middle, row) == Some(v)
               && forall j | 0 <= j < |done| :: !Asks(middle, done[j], v.name))
  {
    var rows := done + [row];
    forall j | 0 <= j < |done| ensures rows[j] == done[j] {}
  }

  /** A name is in `seen` exactly when a row so far asked for it. */
  lemma SeenNames(middle: Service -> string, rows: seq<Row>, seen: map<string, PortVariable>, name: string)
    requires Seen(middle, rows, seen) && Named(seen)
    ensures name in seen <==> exists j | 0 <= j < |rows| :: Asks(middle, rows[j], name)
  {
    if name in seen {
      assert Holds(seen, seen[name]);
      var i: nat :| FirstAsked(middle, rows, i, seen[name]);
      assert Asks(middle, rows[i], name);
    }
    if j :| 0 <= j < |rows| && Asks(middle, rows[j], name) {
      var i := SomeFirst(middle, rows, j, name);
      assert Holds(seen, Entry(middle, rows[i]).value);
    }
  }

  lemma SeenOneMore(middle: Service -> string, done: seq<Row>, row: Row, seen: map<string, PortVariable>)
    requires Seen(middle, done, seen) && Named(seen)
    ensures Seen(middle, done + [row], NextSeen(middle, seen, row)) && Named(NextSeen(middle, seen, row))
  {
    var e := Entry(middle, row);
    var next := NextSeen(middle, seen, row);
    if e.Some? {
      SeenNames(middle, done, seen, e.value.name);
    }
    forall v: PortVariable ensures Holds(next, v) <==> exists i: nat :: FirstAsked(middle, done + [row], i, v) {
      forall i: nat {
        FirstAskedOneMore(middle, done, row, i, v);
      }
      assert Holds(seen, v) <==> exists i: nat :: FirstAsked(middle, done, i, v);
      if e == Some(v) && v.name !in seen {
        assert FirstAsked(middle, done + [row], |done|, v);
      } else if Holds(seen, v) {
        var i: nat :| FirstAsked(middle, done, i, v);
        assert FirstAsked(middle, done + [row], i, v);
      }
    }
  }

  lemma AcceptableOneMore(middle: Service -> string, done: seq<Row>, row: Row)
    ensures Acceptable(middle, done + [row]) <==>
            Acceptable(middle, done) && (Considered(row) ==> NameAccepted(row))
            && forall j | 0 <= j < |done| :: Agree(middle, done[j], row)
  {
    var rows := done + [row];
    forall j | 0 <= j < |done| ensures rows[j] == done[j] {}
    assert rows[|done|] == row;
    if Acceptable(middle, rows) {
      forall i, j | 0 <= i < j < |done| ensures Agree(middle, done[i], done[j]) {
        assert Agree(middle, rows[i], rows[j]);
      }
      forall j | 0 <= j < |done| ensures Agree(middle, done[j], row) {
        assert Agree(middle, rows[j], rows[|done|]);
      }
    }
  }

  lemma AcceptablePrefix(middle: Service -> string, rows: seq<Row>, i: nat)
    requires i <= |rows|
    ensures Acceptable(middle, rows) ==> Acceptable(middle, rows[..i])
  {
  }

  /** Comparing a row with the one variable in `seen` compares it with every earlier row. */
  lemma AgreesWithSeen(middle: Service -> string, done: seq<Row>, row: Row, seen: map<string, PortVariable>)
    requires Acceptable(middle, done) && Seen(middle, done, seen) && Named(seen) && Entry(middle, row).Some?
    ensures (forall j | 0 <= j < |done| :: Agree(middle, done[j], row)) <==>
            var v := Entry(middle, row).value;
            v.name in seen ==> seen[v.name].blue == v.blue && seen[v.name].green == v.green
  {
    var v := Entry(middle, row).value;
    SeenNames(middle, done, seen, v.name);
    if v.name in seen {
      assert Holds(seen, seen[v.name]);
      var i: nat :| FirstAsked(middle, done, i, seen[v.name]);
      forall j | 0 <= j < |done| ensures Asks(middle, done[j], v.name) ==> PairOf(done[j]) == PairOf(done[i]) {
        assert j < i ==> !Asks(middle, done[j], v.name);
        assert i < j ==> Agree(middle, done[i], done[j]);
      }
      assert Asks(middle, done[i], v.name);
      assert Agree(middle, done[i], row) <==> PairOf(done[i]) == PairOf(row);
    }
  }

  const NoPair := Pair("", "")

  function OrDefault(main: Pair): Pair {
    if main.blue == "" then Pair("3101", "3102") else main
  }

  ghost predicate MainSoFar(rows: seq<Row>, main: Pair) {
    MainPair(rows, OrDefault(main)) && (main.blue == "" <==> forall i | 0 <= i < |rows| :: !Considered(rows[i]))
  }

  lemma MainOneMore(middle: Service -> string, done: seq<Row>, row: Row, main: Pair)
    requires MainSoFar(done, main) && Acceptable(middle, done + [row])
    ensures MainSoFar(done + [row], NextMain(main, row))
  {
    var rows := done + [row];
    var next := NextMain(main, row);
    assert rows[|done|] == row;
    forall j | 0 <= j < |done| ensures rows[j] == done[j] {}
    forall i | 0 <= i < |rows| && NamesMain(rows[i]) ensures OrDefault(next) == PairOf(rows[i]) {
      if i < |done| {
        assert OrDefault(main) == PairOf(done[i]);
        assert Agree(middle, rows[i], rows[|done|]);
      }
    }
    if forall j | 0 <= j < |rows| :: !NamesMain(rows[j]) {
      forall j | 0 <= j < |done| ensures !NamesMain(done[j]) {
        assert !NamesMain(rows[j]);
      }
      forall i | 0 <= i < |rows| && Considered(rows[i]) && (forall j | 0 <= j < i :: !Considered(rows[j]))
        ensures OrDefault(next) == PairOf(rows[i])
      {
        forall j | 0 <= j < i ensures !Considered(done[j]) {
          assert !Considered(rows[j]);
        }
      }
    }
  }

  /** Sorting what `seen` holds gives the list of first-asked variables. */
  lemma SortedSeen(
    middle: Service -> string, rows: seq<Row>, seen: map<string, PortVariable>, unsorted: seq<PortVariable>)
    requires Seen(middle, rows, seen) && DistinctKeys(NameOf, unsorted)
    requires forall v :: v in unsorted <==> Holds(seen, v)
    ensures Lists(middle, rows, SortBy(NameOf, unsorted))
  {
    SortPermutes(NameOf, unsorted);
    SortSorts(NameOf, unsorted);
    SameMembers(unsorted, SortBy(NameOf, unsorted));
    DistinctSurvives(NameOf, unsorted, SortBy(NameOf, unsorted));
  }

  /** What the loop keeps. */
  ghost predicate Collecting(middle: Service -> string, done: seq<Row>, main: Pair, seen: map<string, PortVariable>) {
    Acceptable(middle, done) && MainSoFar(done, main) && Seen(middle, done, seen) && Named(seen)
  }

  function NextMain(main: Pair, row: Row): Pair {
    if Considered(row) && (main.blue == "" || Given(row) == "DEPLOY_PORT") then PairOf(row) else main
  }

  function NextSeen(middle: Service -> string, seen: map<string, PortVariable>, row: Row): map<string, PortVariable> {
    var e := Entry(middle, row);
    if e.None? || e.value.name in seen then seen else seen[e.value.name := e.value]
  }

  predicate Conflicts(middle: Service -> string, seen: map<string, PortVariable>, row: Row) {
    var e := Entry(middle, row);
    e.Some? && e.value.name in seen
    && (seen[e.value.name].blue != e.value.blue || seen[e.value.name].green != e.value.green)
  }

  lemma CollectOneMore(
    middle: Service -> string, rows: seq<Row>, i: nat, main: Pair, seen: map<string, PortVariable>)
    requires i < |rows| && Collecting(middle, rows[..i], main, seen)
    requires Considered(rows[i]) ==> NameAccepted(rows[i]) && !Conflicts(middle, seen, rows[i])
    ensures Collecting(middle, rows[..i + 1], NextMain(main, rows[i]), NextSeen(middle, seen, rows[i]))
  {
    var done, row := rows[..i], rows[i];
    assert rows[..i + 1] == done + [row];
    if Entry(middle, row).Some? {
      AgreesWithSeen(middle, done, row, seen);
    }
    AcceptableOneMore(middle, done, row);
    SeenOneMore(middle, done, row, seen);
    MainOneMore(middle, done, row, main);
  }

  lemma NameRefused(middle: Service -> string, rows: seq<Row>, i: nat, main: Pair, seen: map<string, PortVariable>)
    requires i < |rows| && Collecting(middle, rows[..i], main, seen) && Considered(rows[i]) && !NameAccepted(rows[i])
    ensures Collected(middle, rows, Refused(InvalidName(Given(rows[i]))))
  {
    assert rows[..i + 1] == rows[..i] + [rows[i]];
    AcceptableOneMore(middle, rows[..i], rows[i]);
    RefusedHere(middle, rows, i, InvalidName(Given(rows[i])));
  }

  lemma PairRefused(
    middle: Service -> string, rows: seq<Row>, i: nat, main: Pair, seen: map<string, PortVariable>, name: string)
    requires i < |rows| && Collecting(middle, rows[..i], main, seen) && Considered(rows[i])
    requires NameAccepted(rows[i]) && Conflicts(middle, seen, rows[i]) && Asks(middle, rows[i], name)
    ensures Collected(middle, rows, Refused(ConflictingPairs(name)))
  {
    var done, row := rows[..i], rows[i];
    assert rows[..i + 1] == done + [row];
    AcceptableOneMore(middle, done, row);
    AgreesWithSeen(middle, done, row, seen);
    var j :| 0 <= j < i && !Agree(middle, done[j], row);
    assert !Agree(middle, rows[j], rows[i]);
    RefusedHere(middle, rows, i, ConflictingPairs(name));
  }

  // ---- by the columns of the rows ----

  /** The variable a row asks for: the one it names, or else the one its service and container port get. */
  predicate Says(middle: Service -> string, row: Row, name: string) {
    && (row.blue != "" || row.green != "")
    && if row.variable.Some? && Trim(row.variable.value) != "" then name == Trim(row.variable.value)
       else row.service.Some? && name == "DEPLOY_MANAGER_" + middle(row.service.value) + "_PORT"
  }

  /** The row's two ports, 3101 and 3102 standing for the one that is missing. */
  predicate PortsOf(row: Row, blue: string, green: string) {
    && blue == (if row.blue == "" then "3101" else row.blue)
    && green == (if row.green == "" then "3102" else row.green)
  }

  lemma EntryByColumns(middle: Service -> string, row: Row)
    ensures PortsOf(row, PairOf(row).blue, PairOf(row).green)
    ensures forall name :: Asks(middle, row, name) <==> Says(middle, row, name)
    ensures Entry(middle, row).Some? ==>
              var v := Entry(middle, row).value;
              && PortsOf(row, v.blue, v.green)
              && v.service == if row.variable.Some? && Trim(row.variable.value) != "" then None else row.service
  {
  }

  /**
    What is collected, by the columns: each variable has the ports of a row that asks
    for it, each row that asks has its ports listed, and the main pair is that of the
    rows that name DEPLOY_PORT, else of the first row with a port, else the default.
   */
  ghost predicate ByColumns(middle: Service -> string, rows: seq<Row>, main: Pair, variables: seq<PortVariable>) {
    && (forall v | v in variables :: exists row :: row in rows && AskedFor(middle, row, v))
    && (forall row, name | row in rows && Says(middle, row, name) :: ListedFor(middle, row, name, variables))
    && MainIs(rows, main)
  }

  predicate AskedFor(middle: Service -> string, row: Row, v: PortVariable) {
    Says(middle, row, v.name) && PortsOf(row, v.blue, v.green)
  }

  predicate ListedFor(middle: Service -> string, row: Row, name: string, variables: seq<PortVariable>) {
    exists v :: v in variables && v.name == name && PortsOf(row, v.blue, v.green)
  }

  ghost predicate MainIs(rows: seq<Row>, main: Pair) {
    && (forall i | 0 <= i < |rows| && SaysMain(rows[i]) :: PortsOf(rows[i], main.blue, main.green))
    && (forall i | FirstWithPort(rows, i) && (forall j | 0 <= j < |rows| :: !SaysMain(rows[j])) ::
          PortsOf(rows[i], main.blue, main.green))
    && ((forall i | 0 <= i < |rows| :: rows[i].blue == "" && rows[i].green == "") ==> main == Pair("3101", "3102"))
  }

  predicate SaysMain(row: Row) {
    (row.blue != "" || row.green != "") && row.variable.Some? && Trim(row.variable.value) == "DEPLOY_PORT"
  }

  predicate FirstWithPort(rows: seq<Row>, i: int) {
    && 0 <= i < |rows| && (rows[i].blue != "" || rows[i].green != "")
    && forall j | 0 <= j < i :: rows[j].blue == "" && rows[j].green == ""
  }

  lemma CollectedByColumns(middle: Service -> string, rows: seq<Row>, main: Pair, variables: seq<PortVariable>)
    requires Collected(middle, rows, Ports(main, variables))
    ensures ByColumns(middle, rows, main, variables)
  {
    forall v | v in variables ensures exists row :: row in rows && AskedFor(middle, row, v) {
      var i: nat :| FirstAsked(middle, rows, i, v);
      EntryByColumns(middle, rows[i]);
      assert Asks(middle, rows[i], v.name);
      assert rows[i] in rows && AskedFor(middle, rows[i], v);
    }
    forall row, name | row in rows && Says(middle, row, name) ensures ListedFor(middle, row, name, variables) {
      var i :| 0 <= i < |rows| && rows[i] == row;
      EntryByColumns(middle, rows[i]);
      assert Asks(middle, rows[i], name);
      var k := SomeFirst(middle, rows, i, name);
      EntryByColumns(middle, rows[k]);
      assert k < i ==> Agree(middle, rows[k], rows[i]);
      assert Entry(middle, rows[k]).value in variables;
    }
    MainByColumns(rows, main);
  }

  lemma MainByColumns(rows: seq<Row>, main: Pair)
    requires MainPair(rows, main)
    ensures MainIs(rows, main)
  {
    forall i | 0 <= i < |rows| ensures SaysMain(rows[i]) <==> NamesMain(rows[i]) {}
    forall i | 0 <= i < |rows| ensures PortsOf(rows[i], PairOf(rows[i]).blue, PairOf(rows[i]).green) {}
    forall i | 0 <= i < |rows| && FirstWithPort(rows, i)
      ensures Considered(rows[i]) && forall j | 0 <= j < i :: !Considered(rows[j])
    {
    }
    if forall i | 0 <= i < |rows| :: rows[i].blue == "" && rows[i].green == "" {
      assert forall i | 0 <= i < |rows| :: !Considered(rows[i]);
      assert forall i | 0 <= i < |rows| :: !NamesMain(rows[i]);
    }
  }

  /** routePorts. */
  method CollectPorts(middle: Service -> string, rows: seq<Row>) returns (r: Ports)
    ensures Collected(middle, rows, r)
    ensures r.Ports? ==> ByColumns(middle, rows, r.main, r.variables)
  {
    var main, seen := NoPair, map[];
    for i := 0 to |rows|
      invariant Collecting(middle, rows[..i], main, seen)
    {
      var row := rows[i];
      if Considered(row) {
        var pair, name := PairOf(row), Given(row);
        if row.variable.Some? && !EnvFiles.ValidKey(name) {
          NameRefused(middle, rows, i, main, seen);
          return Refused(InvalidName(name));
        }
        var entry := Entry(middle, row);
        if entry.Some? && entry.value.name in seen
           && (seen[entry.value.name].blue != pair.blue || seen[entry.value.name].green != pair.green) {
          PairRefused(middle, rows, i, main, seen, entry.value.name);
          return Refused(ConflictingPairs(entry.value.name));
        }
        CollectOneMore(middle, rows, i, main, seen);
        if main.blue == "" || name == "DEPLOY_PORT" {
          main := pair;
        }
        if entry.Some? && entry.value.name !in seen {
          seen := seen[entry.value.name := entry.value];
        }
      } else {
        CollectOneMore(middle, rows, i, main, seen);
      }
    }
    assert rows[..|rows|] == rows;
    if main.blue == "" {
      main := Pair("3101", "3102");
    }
    var variables := SortedVariables(middle, rows, seen);
    CollectedByColumns(middle, rows, main, variables);
    r := Ports(main, variables);
  }

  /** What left the map stands in the list. */
  ghost predicate Emptied(all: map<string, PortVariable>, rest: map<string, PortVariable>, listed: seq<PortVariable>) {
    rest.Keys <= all.Keys && (forall n | n in rest :: rest[n] == all[n])
    && (forall v :: v in listed <==> Holds(all, v) && v.name !in rest)
    && DistinctKeys(NameOf, listed)
  }

  lemma EmptiedOneMore(
    all: map<string, PortVariable>, rest: map<string, PortVariable>, listed: seq<PortVariable>, name: string)
    requires Named(all) && Emptied(all, rest, listed) && name in rest
    ensures Emptied(all, rest - {name}, listed + [rest[name]])
  {
    forall i | 0 <= i < |listed| ensures NameOf(listed[i]) != name {
      assert listed[i] in listed;
    }
  }

  /** The map in any order, then sorted by name. */
  method SortedVariables(ghost middle: Service -> string, ghost rows: seq<Row>, all: map<string, PortVariable>)
    returns (r: seq<PortVariable>)
    requires Seen(middle, rows, all) && Named(all)
    ensures Lists(middle, rows, r)
  {
    var rest := all;
    var unsorted: seq<PortVariable> := [];
    while rest.Keys != {}
      invariant Emptied(all, rest, unsorted)
      decreases |rest.Keys|
    {
      var name :| name in rest;
      EmptiedOneMore(all, rest, unsorted, name);
      unsorted := unsorted + [rest[name]];
      rest := rest - {name};
    }
    SortedSeen(middle, rows, all, unsorted);
    r := SortBy(NameOf, unsorted);
  }

  lemma RefusedHere(middle: Service -> string, rows: seq<Row>, i: nat, error: Error)
    requires i < |rows| && Offends(middle, rows, i, error) && !Acceptable(middle, rows[..i + 1])
    ensures Collected(middle, rows, Refused(error))
  {
    AcceptablePrefix(middle, rows, i + 1);
  }

  // ---- the order of the routes ----

  datatype NamedPair = NamedPair(name: string, pair: Pair)

  function NameOfPair(p: NamedPair): string {
    p.name
  }

  function Plain(v: PortVariable): NamedPair {
    NamedPair(v.name, Pair(v.blue, v.green))
  }

  /** The name-to-pair list: what the variables say once the service columns are set aside. */
  function Pairs(variables: seq<PortVariable>): (r: seq<NamedPair>)
    ensures |r| == |variables| && forall i | 0 <= i < |r| :: r[i] == Plain(variables[i])
  {
    seq(|variables|, i requires 0 <= i < |variables| => Plain(variables[i]))
  }

  /** Acceptance without mention of positions. */
  lemma AcceptableByMembers(middle: Service -> string, rows: seq<Row>)
    ensures Acceptable(middle, rows) <==>
            (forall a | a in rows :: Considered(a) ==> NameAccepted(a))
            && (forall a, b | a in rows && b in rows :: Agree(middle, a, b))
  {
    if Acceptable(middle, rows) {
      forall a, b | a in rows && b in rows ensures Agree(middle, a, b) {
        var i :| 0 <= i < |rows| && rows[i] == a;
        var j :| 0 <= j < |rows| && rows[j] == b;
        assert i < j ==> Agree(middle, rows[i], rows[j]);
        assert j < i ==> Agree(middle, rows[j], rows[i]);
      }
    }
  }

  /** A pair is listed exactly when some route asks for it. */
  lemma PairsByMembers(middle: Service -> string, rows: seq<Row>, variables: seq<PortVariable>, p: NamedPair)
    requires Acceptable(middle, rows) && Lists(middle, rows, variables)
    ensures p in Pairs(variables) <==> exists a | a in rows :: Asks(middle, a, p.name) && PairOf(a) == p.pair
  {
    if p in Pairs(variables) {
      var k :| 0 <= k < |variables| && Plain(variables[k]) == p;
      assert variables[k] in variables;
      var i: nat :| FirstAsked(middle, rows, i, variables[k]);
      assert rows[i] in rows;
    }
    if a :| a in rows && Asks(middle, a, p.name) && PairOf(a) == p.pair {
      var j :| 0 <= j < |rows| && rows[j] == a;
      var i := SomeFirst(middle, rows, j, p.name);
      var v := Entry(middle, rows[i]).value;
      AcceptableByMembers(middle, rows);
      assert Agree(middle, rows[i], a);
      assert v in variables;
      var k :| 0 <= k < |variables| && variables[k] == v;
      assert Pairs(variables)[k] == p;
    }
  }

  lemma PairsAreSorted(variables: seq<PortVariable>)
    requires SortedBy(NameOf, variables) && DistinctKeys(NameOf, variables)
    ensures SortedBy(NameOfPair, Pairs(variables)) && DistinctKeys(NameOfPair, Pairs(variables))
  {
    var pairs := Pairs(variables);
    forall i, j | 0 <= i < j < |pairs|
      ensures Leq(NameOfPair(pairs[i]), NameOfPair(pairs[j])) && NameOfPair(pairs[i]) != NameOfPair(pairs[j])
    {
      assert Leq(NameOf(variables[i]), NameOf(variables[j])) && NameOf(variables[i]) != NameOf(variables[j]);
    }
  }

  /** However the same routes are ordered: both refused or both taken, and then with the same name-to-pair list. */
  lemma PairsIgnoreOrder(middle: Service -> string, a: seq<Row>, ra: Ports, b: seq<Row>, rb: Ports)
    requires multiset(a) == multiset(b) && Collected(middle, a, ra) && Collected(middle, b, rb)
    ensures ra.Ports? <==> rb.Ports?
    ensures ra.Ports? ==> Pairs(ra.variables) == Pairs(rb.variables)
    ensures ra.Ports? && (exists row | row in a :: NamesMain(row)) ==> ra.main == rb.main
  {
    SameMembers(a, b);
    AcceptableByMembers(middle, a);
    AcceptableByMembers(middle, b);
    if ra.Ports? {
      PairsAreSorted(ra.variables);
      PairsAreSorted(rb.variables);
      forall p ensures p in Pairs(ra.variables) <==> p in Pairs(rb.variables) {
        PairsByMembers(middle, a, ra.variables, p);
        PairsByMembers(middle, b, rb.variables, p);
      }
      SortedListIsItsMembers(NameOfPair, Pairs(ra.variables), Pairs(rb.variables));
      if row :| row in a && NamesMain(row) {
        var i :| 0 <= i < |a| && a[i] == row;
        var j :| 0 <= j < |b| && b[j] == row;
        assert NamesMain(a[i]) && NamesMain(b[j]);
      }
    }
  }

  /** Routes of one name that also agree on the service: then nothing in the list depends on the order. */
  ghost predicate SameEntries(middle: Service -> string, rows: seq<Row>) {
    forall a, b | a in rows && b in rows ::
      Entry(middle, a).Some? && Asks(middle, b, Entry(middle, a).value.name) ==> Entry(middle, a) == Entry(middle, b)
  }

  lemma ListedByMembers(middle: Service -> string, rows: seq<Row>, variables: seq<PortVariable>, v: PortVariable)
    requires SameEntries(middle, rows) && Lists(middle, rows, variables)
    ensures v in variables <==> exists a | a in rows :: Entry(middle, a) == Some(v)
  {
    if v in variables {
      var i: nat :| FirstAsked(middle, rows, i, v);
      assert rows[i] in rows;
    }
    if a :| a in rows && Entry(middle, a) == Some(v) {
      var j :| 0 <= j < |rows| && rows[j] == a;
      var i := SomeFirst(middle, rows, j, v.name);
      assert rows[i] in rows;
      assert Entry(middle, a) == Entry(middle, rows[i]);
    }
  }

  /** The condition under which the whole list, service columns included, ignores the order. */
  lemma ListIgnoresOrder(
    middle: Service -> string, a: seq<Row>, va: seq<PortVariable>, b: seq<Row>, vb: seq<PortVariable>)
    requires multiset(a) == multiset(b) && Lists(middle, a, va) && Lists(middle, b, vb)
    requires SameEntries(middle, a)
    ensures va == vb
  {
    SameMembers(a, b);
    forall v ensures v in va <==> v in vb {
      ListedByMembers(middle, a, va, v);
      ListedByMembers(middle, b, vb, v);
    }
    SortedListIsItsMembers(NameOf, va, vb);
  }

  function ToFront(rows: seq<Row>, i: nat): (r: seq<Row>)
    requires i < |rows|
    ensures multiset(r) == multiset(rows) && r[0] == rows[i]
  {
    assert rows == rows[..i] + [rows[i]] + rows[i + 1..];
    [rows[i]] + rows[..i] + rows[i + 1..]
  }

  lemma FrontIsListed(middle: Service -> string, rows: seq<Row>, i: nat, vs: seq<PortVariable>)
    requires i < |rows| && Entry(middle, rows[i]).Some? && Lists(middle, ToFront(rows, i), vs)
    ensures Entry(middle, rows[i]).value in vs
  {
    assert FirstAsked(middle, ToFront(rows, i), 0, Entry(middle, rows[i]).value);
  }

  /** Whenever that condition fails, two orders of the routes give different lists. */
  lemma OrderMatters(
    middle: Service -> string, rows: seq<Row>, i: nat, j: nat, vi: seq<PortVariable>, vj: seq<PortVariable>)
    requires i < |rows| && j < |rows| && Entry(middle, rows[i]).Some?
    requires Asks(middle, rows[j], Entry(middle, rows[i]).value.name)
      && Entry(middle, rows[i]) != Entry(middle, rows[j])
    requires Lists(middle, ToFront(rows, i), vi) && Lists(middle, ToFront(rows, j), vj)
    ensures vi != vj
  {
    FrontIsListed(middle, rows, i, vi);
    FrontIsListed(middle, rows, j, vj);
    OneEntryPerName(vi, Entry(middle, rows[i]).value, Entry(middle, rows[j]).value);
  }

  lemma OneEntryPerName(vs: seq<PortVariable>, a: PortVariable, b: PortVariable)
    requires DistinctKeys(NameOf, vs) && a in vs && a.name == b.name
    ensures b in vs ==> a == b
  {
    if b in vs {
      var k :| 0 <= k < |vs| && vs[k] == a;
      var l :| 0 <= l < |vs| && vs[l] == b;
      assert NameOf(vs[k]) == NameOf(vs[l]);
    }
  }
}
