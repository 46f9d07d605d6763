/** The process-wide registry of data directory leases. */
module DataDirLease {

  datatype Mode = Shared | Exclusive

  datatype LeaseState = LeaseState(readers: nat, writer: bool)

  type Key = string

  datatype Holder = Holder(key: Key, mode: Mode)

  /** The registry entry for a key; absent means no holder. */
  function StateOf(paths: map<Key, LeaseState>, key: Key): (r: LeaseState) {
    if key in paths then paths[key] else LeaseState(0, false)
  }

  /** The entry counts exactly the outstanding leases of its key. */
  predicate Counts(paths: map<Key, LeaseState>, holders: multiset<Holder>, key: Key) {
    && StateOf(paths, key).readers == holders[Holder(key, Shared)]
    && (if StateOf(paths, key).writer then 1 else 0) == holders[Holder(key, Exclusive)]
    && !(StateOf(paths, key).writer && StateOf(paths, key).readers > 0)
  }

  class Registry {
    var paths: map<Key, LeaseState>
    ghost var holders: multiset<Holder>

    ghost predicate Valid()
      reads this
    {
      && (forall key :: Counts(paths, holders, key))
      && (forall key :: key in paths ==> paths[key] != LeaseState(0, false))
    }

    constructor ()
      ensures Valid() && holders == multiset{}
    {
      paths := map[];
      holders := multiset{};
    }

    /** Grants the lease exactly when it excludes no outstanding one. */
    method Reserve(key: Key, mode: Mode) returns (ok: bool)
      requires Valid()
      modifies this
      ensures Valid()
      ensures ok <==>
        && old(holders)[Holder(key, Exclusive)] == 0
        && (mode == Exclusive ==> old(holders)[Holder(key, Shared)] == 0)
      ensures holders == if ok then old(holders) + multiset{Holder(key, mode)} else old(holders)
      ensures !ok ==> paths == old(paths)
    {
      assert Counts(paths, holders, key);
      var state := StateOf(paths, key);
      if mode == Exclusive {
        if state.writer || state.readers > 0 {
          return false;
        }
        state := state.(writer := true);
      } else {
        if state.writer {
          return false;
        }
        state := state.(readers := state.readers + 1);
      }
      ghost var was, had := paths, holders;
      paths := paths[key := state];
      holders := holders + multiset{Holder(key, mode)};
      forall k ensures Counts(paths, holders, k) {
        assert Counts(was, had, k);
      }
      return true;
    }

    /** Gives back one outstanding lease, if there is one; the last one removes the entry. */
    method Release(key: Key, mode: Mode)
      requires Valid()
      modifies this
      ensures Valid() && holders == old(holders) - multiset{Holder(key, mode)}
      ensures key in paths <==> Holder(key, Shared) in holders || Holder(key, Exclusive) in holders
    {
      ghost var was, had := paths, holders;
      if key in paths {
        var state := Without(paths[key], mode);
        if !state.writer && state.readers == 0 {
          paths := paths - {key};
        } else {
          paths := paths[key := state];
        }
      }
      holders := holders - multiset{Holder(key, mode)};
      forall k ensures Counts(paths, holders, k) {
        WithoutCounts(was, had, paths, key, mode, k);
      }
      WithoutCounts(was, had, paths, key, mode, key);
    }
  }

  /** An entry after one holder of this mode has gone. */
  function Without(s: LeaseState, mode: Mode): (r: LeaseState) {
    if mode == Exclusive then s.(writer := false)
    else if s.readers > 0 then s.(readers := s.readers - 1)
    else s
  }

  lemma {:induction false} WithoutCounts(was: map<Key, LeaseState>, holders: multiset<Holder>,
      now: map<Key, LeaseState>, key: Key, mode: Mode, k: Key)
    requires Counts(was, holders, k)
    requires StateOf(now, k) == if k == key then Without(StateOf(was, key), mode) else StateOf(was, k)
    ensures Counts(now, holders - multiset{Holder(key, mode)}, k)
  {
    var left := holders - multiset{Holder(key, mode)};
    assert left[Holder(k, Shared)] == if k == key && mode == Shared && holders[Holder(k, Shared)] > 0
      then holders[Holder(k, Shared)] - 1 else holders[Holder(k, Shared)];
    assert left[Holder(k, Exclusive)] == if k == key && mode == Exclusive && holders[Holder(k, Exclusive)] > 0
      then holders[Holder(k, Exclusive)] - 1 else holders[Holder(k, Exclusive)];
  }

  /** In a valid registry a writer is alone. */
  lemma {:induction false} WriterIsAlone(paths: map<Key, LeaseState>, holders: multiset<Holder>, key: Key)
    requires Counts(paths, holders, key) && Holder(key, Exclusive) in holders
    ensures holders[Holder(key, Exclusive)] == 1 && holders[Holder(key, Shared)] == 0
  {
  }
}
