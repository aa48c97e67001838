/** State channels: node updates merged into declared fields, through a reducer
    where the field has one and by last value otherwise. */
module Channels {

  type Field = string

  /** A reducer takes the current value and one update. */
  type Reducer<!V> = (V, V) -> V

  /** Field values. A field never set reads as `missing`. */
  datatype Store<V> = Store(fields: map<Field, V>, missing: V)

  function Get<V>(s: Store<V>, f: Field): V {
    if f in s.fields then s.fields[f] else s.missing
  }

  /** One entry of an update dictionary merged into one field. */
  function Merge<V>(s: Store<V>, reducers: map<Field, Reducer<V>>, f: Field, v: V): Store<V> {
    s.(fields := s.fields[f := if f in reducers then reducers[f](Get(s, f), v) else v])
  }

  /** All entries of one update dictionary at once, field by field. */
  function MergeAll<V>(s: Store<V>, reducers: map<Field, Reducer<V>>, update: map<Field, V>): Store<V> {
    s.(fields := map f | f in s.fields.Keys + update.Keys ::
      if f !in update then s.fields[f]
      else if f in reducers then reducers[f](Get(s, f), update[f])
      else update[f])
  }

  /** A field with a reducer becomes the reducer's answer to its current value, `missing`
      if it has none, and the update; a plain one takes the update; others stay. */
  lemma MergeEffect<V>(s: Store<V>, reducers: map<Field, Reducer<V>>, update: map<Field, V>, f: Field)
    ensures var s' := MergeAll(s, reducers, update);
            && s'.missing == s.missing
            && (f in s'.fields <==> f in s.fields || f in update)
            && (f in update && f in reducers && f in s.fields ==> s'.fields[f] == reducers[f](s.fields[f], update[f]))
            && (f in update && f in reducers && f !in s.fields ==> s'.fields[f] == reducers[f](s.missing, update[f]))
            && (f in update && f !in reducers ==> s'.fields[f] == update[f])
            && (f !in update && f in s.fields ==> s'.fields[f] == s.fields[f])
  {
  }

  /** The state object, updated in place. */
  class GraphState<V> {
    var store: Store<V>

    constructor (store: Store<V>)
      ensures this.store == store
    {
      this.store := store;
    }

    /** Merges `update` entry by entry, in whatever order its keys are visited. */
    method ApplyUpdates(update: map<Field, V>, reducers: map<Field, Reducer<V>>)
      modifies this
      ensures store == MergeAll(old(store), reducers, update)
    {
      var todo := update.Keys;
      while todo != {}
        invariant todo <= update.Keys
        invariant store == MergeAll(old(store), reducers, update - todo)
        decreases |todo|
      {
        var f :| f in todo;
        MergeOneMore(old(store), reducers, update, todo, f);
        if f in reducers {
          var current := Get(store, f);
          store := store.(fields := store.fields[f := reducers[f](current, update[f])]);
        } else {
          store := store.(fields := store.fields[f := update[f]]);
        }
        todo := todo - {f};
      }
      assert update - {} == update;
    }
  }

  lemma MergeOneMore<V>(s: Store<V>, reducers: map<Field, Reducer<V>>, update: map<Field, V>, todo: set<Field>,
                        f: Field)
    requires f in todo && todo <= update.Keys
    ensures MergeAll(s, reducers, update - (todo - {f})) ==
            Merge(MergeAll(s, reducers, update - todo), reducers, f, update[f])
    ensures Get(MergeAll(s, reducers, update - todo), f) == Get(s, f)
  {
    var a := MergeAll(s, reducers, update - (todo - {f})).fields;
    var b := Merge(MergeAll(s, reducers, update - todo), reducers, f, update[f]).fields;
    assert a.Keys == b.Keys;
    forall g | g in a ensures a[g] == b[g] {}
  }

  // ------------------------------------------------------------------
  // Many updates, in any order
  // ------------------------------------------------------------------

  function Run<V>(s: Store<V>, reducers: map<Field, Reducer<V>>, updates: seq<map<Field, V>>): Store<V> {
    if updates == [] then s
    else MergeAll(Run(s, reducers, updates[..|updates| - 1]), reducers, updates[|updates| - 1])
  }

  ghost predicate AssociativeCommutative<V(!new)>(r: Reducer<V>) {
    && (forall a, b, c :: r(r(a, b), c) == r(a, r(b, c)))
    && (forall a, b :: r(a, b) == r(b, a))
  }

  /** Every reducer is associative and commutative. */
  ghost predicate GoodReducers<V(!new)>(reducers: map<Field, Reducer<V>>) {
    forall f | f in reducers :: AssociativeCommutative(reducers[f])
  }

  /** Two updates write the same value to every field without a reducer that both write. */
  ghost predicate Agree<V>(reducers: map<Field, Reducer<V>>, u: map<Field, V>, v: map<Field, V>) {
    forall f | f in u && f in v && f !in reducers :: u[f] == v[f]
  }

  ghost predicate WritersAgree<V>(reducers: map<Field, Reducer<V>>, updates: seq<map<Field, V>>) {
    forall i, j | 0 <= i < j < |updates| :: Agree(reducers, updates[i], updates[j])
  }

  /** A field without a reducer is written by at most one of the updates. */
  ghost predicate PlainFieldsOwned<V>(reducers: map<Field, Reducer<V>>, updates: seq<map<Field, V>>) {
    forall i, j, f | 0 <= i < j < |updates| && f in updates[i] && f in updates[j] :: f in reducers
  }

  lemma RunAppend<V>(s: Store<V>, reducers: map<Field, Reducer<V>>, updates: seq<map<Field, V>>, u: map<Field, V>)
    ensures Run(s, reducers, updates + [u]) == MergeAll(Run(s, reducers, updates), reducers, u)
  {
    assert (updates + [u])[..|updates|] == updates;
  }

  /** Two updates commute if they agree on the plain fields both write. */
  lemma MergesCommute<V(!new)>(s: Store<V>, reducers: map<Field, Reducer<V>>, u: map<Field, V>, v: map<Field, V>)
    requires GoodReducers(reducers) && Agree(reducers, u, v)
    ensures MergeAll(MergeAll(s, reducers, u), reducers, v) == MergeAll(MergeAll(s, reducers, v), reducers, u)
  {
    var a := MergeAll(MergeAll(s, reducers, u), reducers, v).fields;
    var b := MergeAll(MergeAll(s, reducers, v), reducers, u).fields;
    assert a.Keys == b.Keys;
    forall f | f in a ensures a[f] == b[f] {
      if f in u && f in v && f in reducers {
        var r, x := reducers[f], Get(s, f);
        assert AssociativeCommutative(r);
        assert r(r(x, u[f]), v[f]) == r(x, r(u[f], v[f])) == r(x, r(v[f], u[f])) == r(r(x, v[f]), u[f]);
      }
    }
  }

  lemma AgreeingOrders<V(!new)>(s: Store<V>, reducers: map<Field, Reducer<V>>,
                                updates: seq<map<Field, V>>, shuffled: seq<map<Field, V>>)
    requires GoodReducers(reducers) && WritersAgree(reducers, updates)
    requires multiset(updates) == multiset(shuffled)
    ensures Run(s, reducers, updates) == Run(s, reducers, shuffled)
  {
    var step := (st: Store<V>, u: map<Field, V>) => MergeAll(st, reducers, u);
    RunIsFold(s, reducers, updates, step);
    RunIsFold(s, reducers, shuffled, step);
    forall i, j | 0 <= i < j < |updates| ensures Swappable(step, updates[i], updates[j]) {
      assert Agree(reducers, updates[i], updates[j]);
      forall st ensures step(step(st, updates[i]), updates[j]) == step(step(st, updates[j]), updates[i]) {
        MergesCommute(st, reducers, updates[i], updates[j]);
      }
    }
    PermutedFold(step, s, updates, shuffled);
  }

  /** Update `i` moved to the end: its plain fields then show its own values. */
  lemma LastWriterShows<V>(s: Store<V>, reducers: map<Field, Reducer<V>>, updates: seq<map<Field, V>>, i: nat, f: Field)
    returns (shuffled: seq<map<Field, V>>)
    requires i < |updates| && f in updates[i] && f !in reducers
    ensures multiset(shuffled) == multiset(updates)
    ensures Get(Run(s, reducers, shuffled), f) == updates[i][f]
  {
    var rest := updates[..i] + updates[i + 1..];
    shuffled := rest + [updates[i]];
    RunAppend(s, reducers, rest, updates[i]);
    assert updates == updates[..i] + ([updates[i]] + updates[i + 1..]);
  }

  /** Main theorem: with associative and commutative reducers, from any store, the
      order of the updates does not matter exactly when the writers of each plain
      field agree. */
  lemma OrderDoesNotMatterIff<V(!new)>(s: Store<V>, reducers: map<Field, Reducer<V>>, updates: seq<map<Field, V>>)
    requires GoodReducers(reducers)
    ensures (forall shuffled | multiset(shuffled) == multiset(updates) ::
               Run(s, reducers, shuffled) == Run(s, reducers, updates)) <==>
            WritersAgree(reducers, updates)
  {
    if WritersAgree(reducers, updates) {
      forall shuffled | multiset(shuffled) == multiset(updates)
        ensures Run(s, reducers, shuffled) == Run(s, reducers, updates)
      {
        AgreeingOrders(s, reducers, updates, shuffled);
      }
    } else {
      var i, j :| 0 <= i < j < |updates| && !Agree(reducers, updates[i], updates[j]);
      var f :| f in updates[i] && f in updates[j] && f !in reducers && updates[i][f] != updates[j][f];
      var iLast := LastWriterShows(s, reducers, updates, i, f);
      var jLast := LastWriterShows(s, reducers, updates, j, f);
      assert Run(s, reducers, iLast) != Run(s, reducers, jLast);
    }
  }

  /** Single writers of plain fields are one way to agree. */
  lemma OrderDoesNotMatter<V(!new)>(s: Store<V>, reducers: map<Field, Reducer<V>>,
                                    updates: seq<map<Field, V>>, shuffled: seq<map<Field, V>>)
    requires GoodReducers(reducers) && PlainFieldsOwned(reducers, updates)
    requires multiset(updates) == multiset(shuffled)
    ensures Run(s, reducers, updates) == Run(s, reducers, shuffled)
  {
    forall i, j | 0 <= i < j < |updates| ensures Agree(reducers, updates[i], updates[j]) {}
    OrderDoesNotMatterIff(s, reducers, updates);
  }

  lemma {:induction false} RunIsFold<V>(s: Store<V>, reducers: map<Field, Reducer<V>>, updates: seq<map<Field, V>>,
                                        step: (Store<V>, map<Field, V>) -> Store<V>)
    requires forall st, u :: step(st, u) == MergeAll(st, reducers, u)
    ensures Run(s, reducers, updates) == Fold(step, s, updates)
  {
    if updates == [] {
    } else {
      RunIsFold(s, reducers, updates[..|updates| - 1], step);
    }
  }

  function Fold<S, U>(step: (S, U) -> S, s: S, us: seq<U>): S {
    if us == [] then s else step(Fold(step, s, us[..|us| - 1]), us[|us| - 1])
  }

  ghost predicate Swappable<S(!new), U>(step: (S, U) -> S, u: U, v: U) {
    forall s :: step(step(s, u), v) == step(step(s, v), u)
  }

  lemma FoldLast<S, U>(step: (S, U) -> S, s: S, us: seq<U>, u: U)
    ensures Fold(step, s, us + [u]) == step(Fold(step, s, us), u)
  {
    assert (us + [u])[..|us|] == us;
  }

  lemma SwapLast<S(!new), U>(step: (S, U) -> S, s: S, us: seq<U>, u: U, v: U)
    requires Swappable(step, u, v)
    ensures step(Fold(step, s, us + [u]), v) == Fold(step, s, us + [v] + [u])
  {
    FoldLast(step, s, us, u);
    FoldLast(step, s, us, v);
    FoldLast(step, s, us + [v], u);
  }

  lemma {:induction false} MoveToEnd<S(!new), U>(step: (S, U) -> S, s: S, us: seq<U>, i: nat)
    requires i < |us|
    requires forall j | i < j < |us| :: Swappable(step, us[i], us[j])
    ensures Fold(step, s, us) == Fold(step, s, us[..i] + us[i + 1..] + [us[i]])
    decreases |us|
  {
    var k := |us| - 1;
    var u, init, v := us[i], us[..k], us[k];
    if i == k {
      assert us[..i] + us[i + 1..] + [u] == us;
    } else {
      var mid := us[..i] + us[i + 1..k];
      MoveToEnd(step, s, init, i);
      assert init[..i] + init[i + 1..] == mid;
      assert us[..i] + us[i + 1..] == mid + [v];
      SwapLast(step, s, mid, u, v);
    }
  }

  /** Where the last element of `vs` sits in its permutation `us`. */
  lemma FindRemoved<U>(us: seq<U>, vs: seq<U>) returns (i: nat)
    requires multiset(us) == multiset(vs) && vs != []
    ensures i < |us| && us[i] == vs[|vs| - 1]
    ensures multiset(us[..i] + us[i + 1..]) == multiset(vs[..|vs| - 1])
  {
    var k := |vs| - 1;
    assert vs == vs[..k] + [vs[k]];
    assert vs[k] in multiset(us);
    i :| 0 <= i < |us| && us[i] == vs[k];
    var left, right := us[..i], us[i + 1..];
    assert us == left + [us[i]] + right;
    assert multiset(left + right) == multiset(us) - multiset{us[i]};
    assert multiset(vs[..k]) == multiset(vs) - multiset{us[i]};
  }

  /** A fold over pairwise swappable elements depends only on their multiset. */
  lemma {:induction false} PermutedFold<S(!new), U>(step: (S, U) -> S, s: S, us: seq<U>, vs: seq<U>)
    requires forall i, j | 0 <= i < j < |us| :: Swappable(step, us[i], us[j])
    requires multiset(us) == multiset(vs)
    ensures Fold(step, s, us) == Fold(step, s, vs)
    decreases |vs|
  {
    if vs == [] {
      assert |multiset(us)| == 0;
    } else {
      var k := |vs| - 1;
      var last := vs[k];
      var i := FindRemoved(us, vs);
      var rest := us[..i] + us[i + 1..];
      MoveToEnd(step, s, us, i);
      assert (rest + [last])[..|rest|] == rest;
      forall a, b | 0 <= a < b < |rest| ensures Swappable(step, rest[a], rest[b]) {
        assert rest[a] == us[if a < i then a else a + 1] && rest[b] == us[if b < i then b else b + 1];
      }
      PermutedFold(step, s, rest, vs[..k]);
    }
  }

  // ------------------------------------------------------------------
  // Idempotent reducers
  // ------------------------------------------------------------------

  /** Merging the same value again changes nothing. */
  ghost predicate IdempotentReducers<V(!new)>(reducers: map<Field, Reducer<V>>) {
    forall f, v | f in reducers :: reducers[f](v, v) == v
  }

  lemma MergeTwice<V(!new)>(s: Store<V>, reducers: map<Field, Reducer<V>>, u: map<Field, V>)
    requires GoodReducers(reducers) && IdempotentReducers(reducers)
    ensures MergeAll(MergeAll(s, reducers, u), reducers, u) == MergeAll(s, reducers, u)
  {
    var once := MergeAll(s, reducers, u).fields;
    var twice := MergeAll(MergeAll(s, reducers, u), reducers, u).fields;
    assert once.Keys == twice.Keys;
    forall f | f in once ensures twice[f] == once[f] {
      if f in u && f in reducers {
        var r, x := reducers[f], Get(s, f);
        assert AssociativeCommutative(r);
        assert r(r(x, u[f]), u[f]) == r(x, r(u[f], u[f]));
        assert r(u[f], u[f]) == u[f];
      }
    }
  }

  lemma Move<T>(us: seq<T>, u: T) returns (rest: seq<T>)
    requires u in us
    ensures multiset(us) == multiset(rest + [u]) && forall x | x in rest :: x in us
  {
    var i :| 0 <= i < |us| && us[i] == u;
    rest := us[..i] + us[i + 1..];
    assert us == us[..i] + ([u] + us[i + 1..]);
  }

  /** Any two updates of the sequence, or an update and itself, agree. */
  ghost predicate AllAgree<V>(reducers: map<Field, Reducer<V>>, updates: seq<map<Field, V>>) {
    forall u, v | u in updates && v in updates :: Agree(reducers, u, v)
  }

  /** Repeating an update that was already merged changes nothing. */
  lemma RepeatChangesNothing<V(!new)>(s: Store<V>, reducers: map<Field, Reducer<V>>,
                                      updates: seq<map<Field, V>>, u: map<Field, V>)
    requires GoodReducers(reducers) && IdempotentReducers(reducers)
    requires AllAgree(reducers, updates) && u in updates
    ensures Run(s, reducers, updates + [u]) == Run(s, reducers, updates)
  {
    var rest := Move(updates, u);
    AgreeingOrders(s, reducers, updates, rest + [u]);
    RunAppend(s, reducers, rest, u);
    RunAppend(s, reducers, updates, u);
    MergeTwice(Run(s, reducers, rest), reducers, u);
  }

  lemma {:induction false} RepeatsChangeNothing<V(!new)>(s: Store<V>, reducers: map<Field, Reducer<V>>,
                                                         updates: seq<map<Field, V>>, more: seq<map<Field, V>>)
    requires GoodReducers(reducers) && IdempotentReducers(reducers)
    requires AllAgree(reducers, updates) && forall u | u in more :: u in updates
    ensures Run(s, reducers, updates + more) == Run(s, reducers, updates)
  {
    if more == [] {
      assert updates + more == updates;
    } else {
      var init, u := more[..|more| - 1], more[|more| - 1];
      assert updates + more == (updates + init) + [u];
      RepeatsChangeNothing(s, reducers, updates, init);
      RepeatChangesNothing(s, reducers, updates + init, u);
    }
  }

  /** With idempotent reducers only the set of updates matters, not how often or in
      which order they are merged. */
  lemma OnlyTheSetMatters<V(!new)>(s: Store<V>, reducers: map<Field, Reducer<V>>,
                                   us: seq<map<Field, V>>, vs: seq<map<Field, V>>)
    requires GoodReducers(reducers) && IdempotentReducers(reducers) && AllAgree(reducers, us)
    requires forall u :: u in us <==> u in vs
    ensures Run(s, reducers, us) == Run(s, reducers, vs)
  {
    RepeatsChangeNothing(s, reducers, us, vs);
    RepeatsChangeNothing(s, reducers, vs, us);
    assert AllAgree(reducers, us + vs);
    AgreeingOrders(s, reducers, us + vs, vs + us);
  }

  // ------------------------------------------------------------------
  // The per-field reading
  // ------------------------------------------------------------------

  /** What a field's contributions amount to, one after the other. */
  function FoldField<V>(start: V, reducers: map<Field, Reducer<V>>, updates: seq<map<Field, V>>, f: Field): V {
    if updates == [] then start
    else
      var before := FoldField(start, reducers, updates[..|updates| - 1], f);
      var u := updates[|updates| - 1];
      if f !in u then before else if f in reducers then reducers[f](before, u[f]) else u[f]
  }

  /** A whole run is, field by field, the fold of that field's contributions. */
  lemma {:induction false} RunIsFieldwiseFold<V>(s: Store<V>, reducers: map<Field, Reducer<V>>,
                                                 updates: seq<map<Field, V>>, f: Field)
    ensures Get(Run(s, reducers, updates), f) == FoldField(Get(s, f), reducers, updates, f)
    ensures Run(s, reducers, updates).missing == s.missing
  {
    if updates == [] {
    } else {
      RunIsFieldwiseFold(s, reducers, updates[..|updates| - 1], f);
    }
  }

  /** Two different values for one plain field: whoever comes last wins. */
  lemma PlainFieldOrderMatters<V>(s: Store<V>, reducers: map<Field, Reducer<V>>, f: Field, v: V, w: V)
    requires f !in reducers && v != w
    ensures Run(s, reducers, [map[f := v], map[f := w]]) != Run(s, reducers, [map[f := w], map[f := v]])
  {
    RunAppend(s, reducers, [map[f := v]], map[f := w]);
    RunAppend(s, reducers, [map[f := w]], map[f := v]);
    assert [map[f := v]] + [map[f := w]] == [map[f := v], map[f := w]];
    assert [map[f := w]] + [map[f := v]] == [map[f := w], map[f := v]];
    assert Get(Run(s, reducers, [map[f := v], map[f := w]]), f) == w;
    assert Get(Run(s, reducers, [map[f := w], map[f := v]]), f) == v;
  }
}
