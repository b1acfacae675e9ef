/** What applying an application's proxy routes does to the rows and to the proxy, failures included. */
module RouteMoves {
  import opened Text
  import opened Site
  import opened Protocol

  predicate IsUndo(c: Command) {
    match c
    case Check(_, undo) => undo
    case Stop(_, _, undo) => undo
    case Start(_, _, undo) => undo
    case SetRoute(_, _, undo) => undo
    case Promote(_, undo) => undo
    case _ => false
  }

  /** Every command issued to take something back succeeds. */
  ghost predicate UndoSucceeds(env: Environment) {
    forall n: nat, c: Command :: IsUndo(c) ==> env(n, c).ok
  }

  /** A failed route command leaves that route file as it was, and no route row disappears mid-run. */
  ghost predicate RoutesAtomic(env: Environment) {
    && (forall n: nat, c: Command :: c.SetRoute? && !env(n, c).ok ==> c.slug !in env(n, c).touched)
    && (forall n: nat, c: Command :: c.Promote? ==> env(n, c).missed == {})
  }

  ghost predicate Reliable(env: Environment) {
    UndoSucceeds(env) && RoutesAtomic(env)
  }

  /** Route ids are a primary key; two routes must not share a proxy file. */
  predicate DistinctRoutes(routes: seq<Route>) {
    forall i, j | 0 <= i < j < |routes| :: routes[i].id != routes[j].id && routes[i].slug != routes[j].slug
  }

  /** The proxy serves for every route what its row records. */
  predicate Consistent(routes: seq<Route>, served: map<string, string>) {
    forall i | 0 <= i < |routes| :: routes[i].slug in served && served[routes[i].slug] == routes[i].upstream
  }

  /** Every route is recorded and served at the upstream of colour `c`. */
  predicate RoutesAt(w: World, c: Color) {
    && Consistent(w.routes, w.served)
    && forall i | 0 <= i < |w.routes| :: Upstream(w.routes[i], Some(c)) == Some(w.routes[i].upstream)
  }

  /** `served` differs from `base` at most at the files of the first `n` routes. */
  predicate SameBeyond(served: map<string, string>, base: map<string, string>, routes: seq<Route>, n: nat)
    requires n <= |routes|
  {
    && served.Keys == base.Keys
    && forall slug | slug in base && served[slug] != base[slug] :: exists j | 0 <= j < n :: routes[j].slug == slug
  }

  // ---- taking routes back ----

  lemma {:induction false} UndoRoutesRestores(env: Environment, m: Machine, base: World, routes: seq<Route>, n: nat)
    requires UndoSucceeds(env) && n <= |routes|
    requires Consistent(routes[..n], base.served)
    requires m.world == base.(served := m.world.served)
    requires SameBeyond(m.world.served, base.served, routes, n)
    ensures UndoRoutes(env, m, routes, n).world == base
    decreases n
  {
    if n == 0 {
      assert m.world.served == base.served;
    } else {
      var c := SetRoute(routes[n - 1].slug, routes[n - 1].upstream, true);
      assert IsUndo(c);
      var next := Exec(env, m, c);
      assert next.world.served == m.world.served[routes[n - 1].slug := routes[n - 1].upstream];
      forall slug | slug in base.served && next.world.served[slug] != base.served[slug]
        ensures exists j | 0 <= j < n - 1 :: routes[j].slug == slug
      {
        var j :| 0 <= j < n && routes[j].slug == slug;
      }
      UndoRoutesRestores(env, next, base, routes, n - 1);
    }
  }

  // ---- preparing and setting routes ----

  lemma {:induction false} PrepareRoutesKeeps(
    env: Environment, m: Machine, routes: seq<Route>, color: Option<Color>, undo: bool)
    ensures PrepareRoutes(env, m, routes, color, undo).m.world == m.world
    ensures UndoSucceeds(env) && undo && Prepared(routes, color) ==> PrepareRoutes(env, m, routes, color, undo).ok
    decreases |routes|
  {
    if routes != [] && Upstream(routes[0], color).Some? {
      var c := Check(PrepareRoute, undo);
      assert undo ==> IsUndo(c);
      if Do(env, m, c).ok {
        PrepareRoutesKeeps(env, Exec(env, m, c), routes[1..], color, undo);
      }
    }
  }

  /** The first `i` routes are served at the colour's upstream and nothing else differs from `base`. */
  predicate ServedUpTo(w: World, base: World, routes: seq<Route>, color: Option<Color>, i: nat)
    requires i <= |routes| && Prepared(routes, color)
  {
    && w == base.(served := w.served)
    && SameBeyond(w.served, base.served, routes, i)
    && forall j | 0 <= j < i ::
         routes[j].slug in w.served && w.served[routes[j].slug] == Upstream(routes[j], color).value
  }

  lemma ServedOneMore(w: World, base: World, routes: seq<Route>, color: Option<Color>, i: nat)
    requires i < |routes| && Prepared(routes, color) && DistinctRoutes(routes)
    requires Consistent(routes, base.served) && ServedUpTo(w, base, routes, color, i)
    ensures ServedUpTo(
              w.(served := w.served[routes[i].slug := Upstream(routes[i], color).value]), base, routes, color, i + 1)
  {
    var next := w.served[routes[i].slug := Upstream(routes[i], color).value];
    forall slug | slug in base.served && next[slug] != base.served[slug]
      ensures exists j | 0 <= j < i + 1 :: routes[j].slug == slug
    {
      if slug == routes[i].slug {
        assert 0 <= i < i + 1;
      } else {
        var j :| 0 <= j < i && routes[j].slug == slug;
        assert 0 <= j < i + 1;
      }
    }
    assert next.Keys == base.served.Keys;
  }

  lemma {:induction false} SetRoutesMoves(
    env: Environment, m: Machine, base: World, routes: seq<Route>, color: Option<Color>, undo: bool, i: nat)
    requires Reliable(env) && i <= |routes| && Prepared(routes, color) && DistinctRoutes(routes)
    requires Consistent(routes, base.served) && ServedUpTo(m.world, base, routes, color, i)
    ensures var r := SetRoutes(env, m, routes, color, undo, i);
            if r.ok then ServedUpTo(r.m.world, base, routes, color, |routes|) else r.m.world == base && !undo
    decreases |routes| - i
  {
    if i < |routes| {
      var c := SetRoute(routes[i].slug, Upstream(routes[i], color).value, undo);
      assert undo ==> IsUndo(c);
      var put := Do(env, m, c);
      if put.ok {
        ServedOneMore(m.world, base, routes, color, i);
        SetRoutesMoves(env, put.m, base, routes, color, undo, i + 1);
      } else {
        assert put.m.world == m.world;
        UndoRoutesRestores(env, Exec(env, put.m, Check(MarkRouteFailed, false)), base, routes, i);
      }
    }
  }

  // ---- recording routes ----

  lemma {:induction false} DesiredAt(routes: seq<Route>, color: Option<Color>)
    requires Prepared(routes, color) && DistinctRoutes(routes)
    ensures forall i | 0 <= i < |routes| ::
              routes[i].id in Desired(routes, color)
                && Desired(routes, color)[routes[i].id] == Upstream(routes[i], color).value
    decreases |routes|
  {
    if routes != [] {
      DesiredAt(routes[..|routes| - 1], color);
    }
  }

  /** The rows once every one of them records the upstream of `color`. */
  predicate RecordedAt(before: seq<Route>, after: seq<Route>, color: Option<Color>) {
    && |after| == |before|
    && forall i | 0 <= i < |before| ::
         Upstream(before[i], color).Some? && after[i] == before[i].(upstream := Upstream(before[i], color).value)
  }

  lemma RecordRoutesOutcome(env: Environment, m: Machine, base: World, color: Option<Color>, undo: bool)
    requires Reliable(env) && Prepared(base.routes, color) && DistinctRoutes(base.routes)
    requires Consistent(base.routes, base.served) && ServedUpTo(m.world, base, base.routes, color, |base.routes|)
    ensures var r := RecordRoutes(env, m, base.routes, color, undo);
            if !r.ok then r.m.world == base && !undo
            else
              && r.m.world == m.world.(routes := r.m.world.routes)
              && RecordedAt(base.routes, r.m.world.routes, color)
              && Consistent(r.m.world.routes, r.m.world.served)
  {
    var command := Promote(Desired(base.routes, color), undo);
    assert undo ==> IsUndo(command);
    DesiredAt(base.routes, color);
    var promoted := Do(env, m, command);
    assert Answer(env, m, command).missed == {};
    if !promoted.ok {
      UndoRoutesRestores(env, promoted.m, base, base.routes, |base.routes|);
    }
  }

  // ---- applying routes ----

  /**
    applyProxyRoutes is all or nothing: an error leaves rows and proxy as they
    were, success records and serves every route at the colour's upstream.
   */
  lemma ApplyRoutesAllOrNothing(env: Environment, m: Machine, t: Target, color: Option<Color>, undo: bool)
    requires Reliable(env) && DistinctRoutes(m.world.routes) && Consistent(m.world.routes, m.world.served) && t.proxied
    ensures var r := ApplyRoutes(env, m, t, color, undo);
            var w, w' := m.world, r.m.world;
            && (!r.ok ==> w' == w && !(undo && Prepared(w.routes, color)))
            && (r.ok ==>
                 && w' == w.(routes := w'.routes, served := w'.served)
                 && RecordedAt(w.routes, w'.routes, color)
                 && SameBeyond(w'.served, w.served, w.routes, |w.routes|)
                 && Consistent(w'.routes, w'.served))
  {
    var w := m.world;
    var list := Check(ListRoutes, undo);
    assert undo ==> IsUndo(list);
    var listed := Do(env, m, list);
    if listed.ok {
      PrepareRoutesKeeps(env, listed.m, w.routes, color, undo);
      var prepared := PrepareRoutes(env, listed.m, w.routes, color, undo);
      if prepared.ok {
        PrepareRoutesChecks(env, listed.m, w.routes, color, undo);
        SetRoutesMoves(env, prepared.m, w, w.routes, color, undo, 0);
        var put := SetRoutes(env, prepared.m, w.routes, color, undo, 0);
        if put.ok && w.routes != [] {
          RecordRoutesOutcome(env, put.m, w, color, undo);
        }
      }
    }
  }

  /** Moving routes to another colour and back leaves no trace. */
  lemma MovedBack(w: World, away: World, back: World, here: Color, there: Color)
    requires RoutesAt(w, here)
    requires away == w.(routes := away.routes, served := away.served)
    requires RecordedAt(w.routes, away.routes, Some(there)) && SameBeyond(away.served, w.served, w.routes, |w.routes|)
    requires back == away.(routes := back.routes, served := back.served)
    requires RecordedAt(away.routes, back.routes, Some(here))
      && SameBeyond(back.served, away.served, away.routes, |away.routes|)
    requires Consistent(back.routes, back.served)
    ensures back == w
  {
    forall i | 0 <= i < |w.routes| ensures back.routes[i] == w.routes[i] {
      assert Upstream(away.routes[i], Some(here)) == Upstream(w.routes[i], Some(here));
    }
    assert back.routes == w.routes;
    forall slug | slug in w.served ensures back.served[slug] == w.served[slug] {
      if forall i | 0 <= i < |w.routes| :: w.routes[i].slug != slug {
        assert forall i | 0 <= i < |away.routes| :: away.routes[i].slug == w.routes[i].slug;
        assert away.served[slug] == w.served[slug];
        assert back.served[slug] == away.served[slug];
      } else {
        var i :| 0 <= i < |w.routes| && w.routes[i].slug == slug;
        assert back.served[back.routes[i].slug] == back.routes[i].upstream;
      }
    }
    assert back.served == w.served;
  }
}
