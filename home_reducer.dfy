/** A model of the `home` feature reducer: a total transition function over the
    feature state `{ list, blankVisible }` driven by two action kinds. Objects are
    values here, so "a fresh object spread" and "the same object" are both just
    a `State`. */
module HomeReducer {

  /** An entity record `{ name }`; its identity is its position in the list. */
  datatype Entity = Entity(name: string)

  /** The state slice of the feature. */
  datatype State = State(list: seq<Entity>, blankVisible: bool)

  /** An action as the reducer's `switch` on `action.type` sees it: the
      list-update tag with its payload, the visibility-toggle tag with its
      payload, and any other tag. */
  datatype Action =
    | UpdateUserList(users: seq<Entity>)
    | ToogleBlankVisible(visible: bool)
    | Other(tag: string)

  /** The state argument of the exported reducer, which may be `undefined`. */
  datatype Option<T> = None | Some(value: T)

  /** The state a fresh store starts from. */
  function Initial(): (s: State)
    ensures s.list == [] && s.blankVisible
  {
    State([], true)
  }

  /** One reducer step. Each known action overwrites exactly one field with its
      payload verbatim; every other action leaves the state as it is. */
  function Reduce(state: State, action: Action): (r: State)
    ensures action.UpdateUserList? ==> r.list == action.users && r.blankVisible == state.blankVisible
    ensures action.ToogleBlankVisible? ==> r.blankVisible == action.visible && r.list == state.list
    ensures action.Other? ==> r == state
  {
    match action
    case UpdateUserList(users) => state.(list := users)
    case ToogleBlankVisible(visible) => state.(blankVisible := visible)
    case Other(_) => state
  }

  /** The reducer as exported: with no state it starts from the initial state. */
  function ReduceDefault(state: Option<State>, action: Action): (r: State)
    ensures state.Some? ==> r == Reduce(state.value, action)
    ensures state.None? ==> r == Reduce(Initial(), action)
    ensures state.None? && action.Other? ==> r.list == [] && r.blankVisible
  {
    match state
    case Some(s) => Reduce(s, action)
    case None => Reduce(Initial(), action)
  }

  /** The state reached from `s` by dispatching `actions` one after another. */
  function Run(s: State, actions: seq<Action>): State
    decreases |actions|
  {
    if actions == [] then s else Run(Reduce(s, actions[0]), actions[1..])
  }

  /** The actions of `actions` the reducer recognises, in order. */
  function Known(actions: seq<Action>): (r: seq<Action>)
    ensures |r| <= |actions|
    ensures forall k :: 0 <= k < |r| ==> !r[k].Other?
    ensures forall a :: a in r <==> a in actions && !a.Other?
    decreases |actions|
  {
    if actions == [] then []
    else if actions[0].Other? then Known(actions[1..])
    else [actions[0]] + Known(actions[1..])
  }

  /** Filtering keeps the order: the recognised actions of two runs in a row
      are those of the first followed by those of the second. */
  lemma {:induction false} KnownAppend(a: seq<Action>, b: seq<Action>)
    ensures Known(a + b) == Known(a) + Known(b)
    decreases |a|
  {
    if a == [] {
      assert a + b == b;
    } else {
      assert (a + b)[0] == a[0] && (a + b)[1..] == a[1..] + b;
      KnownAppend(a[1..], b);
    }
  }

  /** Dispatching the same list update twice is the same as dispatching it once. */
  lemma UpdateIdempotent(s: State, users: seq<Entity>)
    ensures Reduce(Reduce(s, UpdateUserList(users)), UpdateUserList(users)) == Reduce(s, UpdateUserList(users))
  {
  }

  /** Dispatching the same toggle twice is the same as dispatching it once. */
  lemma ToggleIdempotent(s: State, visible: bool)
    ensures Reduce(Reduce(s, ToogleBlankVisible(visible)), ToogleBlankVisible(visible)) == Reduce(s, ToogleBlankVisible(visible))
  {
  }

  /** A list update and a toggle write disjoint fields, so their order does not matter. */
  lemma UpdateToggleCommute(s: State, users: seq<Entity>, visible: bool)
    ensures Reduce(Reduce(s, UpdateUserList(users)), ToogleBlankVisible(visible))
         == Reduce(Reduce(s, ToogleBlankVisible(visible)), UpdateUserList(users))
    ensures Reduce(Reduce(s, UpdateUserList(users)), ToogleBlankVisible(visible)) == State(users, visible)
  {
  }

  /** Dispatching one more action after a run is one more reducer step. */
  lemma {:induction false} RunSnoc(s: State, actions: seq<Action>, a: Action)
    ensures Run(s, actions + [a]) == Reduce(Run(s, actions), a)
    decreases |actions|
  {
    if actions == [] {
      assert [] + [a] == [a];
    } else {
      assert (actions + [a])[1..] == actions[1..] + [a];
      RunSnoc(Reduce(s, actions[0]), actions[1..], a);
    }
  }

  /** After a run, `list` is the payload of the last list update in it, or the
      list it started with when there is none. */
  lemma {:induction false} LastUpdateWins(s: State, actions: seq<Action>)
    ensures (forall k :: 0 <= k < |actions| ==> !actions[k].UpdateUserList?) ==> Run(s, actions).list == s.list
    ensures forall k :: 0 <= k < |actions| && actions[k].UpdateUserList?
                     && (forall j :: k < j < |actions| ==> !actions[j].UpdateUserList?)
                     ==> Run(s, actions).list == actions[k].users
    decreases |actions|
  {
    if actions != [] {
      var init, a := actions[..|actions| - 1], actions[|actions| - 1];
      assert actions == init + [a];
      RunSnoc(s, init, a);
      LastUpdateWins(s, init);
    }
  }

  /** After a run, `blankVisible` is the payload of the last toggle in it, or
      the flag it started with when there is none. */
  lemma {:induction false} LastToggleWins(s: State, actions: seq<Action>)
    ensures (forall k :: 0 <= k < |actions| ==> !actions[k].ToogleBlankVisible?) ==> Run(s, actions).blankVisible == s.blankVisible
    ensures forall k :: 0 <= k < |actions| && actions[k].ToogleBlankVisible?
                     && (forall j :: k < j < |actions| ==> !actions[j].ToogleBlankVisible?)
                     ==> Run(s, actions).blankVisible == actions[k].visible
    decreases |actions|
  {
    if actions != [] {
      var init, a := actions[..|actions| - 1], actions[|actions| - 1];
      assert actions == init + [a];
      RunSnoc(s, init, a);
      LastToggleWins(s, init);
    }
  }

  /** Actions with an unknown tag have no effect anywhere in a run. */
  lemma {:induction false} OtherActionsIgnored(s: State, actions: seq<Action>)
    ensures Run(s, actions) == Run(s, Known(actions))
    decreases |actions|
  {
    if actions != [] {
      OtherActionsIgnored(Reduce(s, actions[0]), actions[1..]);
      if !actions[0].Other? {
        var r := [actions[0]] + Known(actions[1..]);
        assert r[0] == actions[0] && r[1..] == Known(actions[1..]);
      }
    }
  }
}
