/** What the cache adapter's writes do to the Redis store, as functions on its contents. */
module Redis {
  import opened Model

  /** Window keys and their sorted-set members. A member is a whole update, so equal updates merge. */
  type Windows = map<Key, set<Update>>
  type Latest = map<Key, Update>

  function Members(w: Windows, k: Key): set<Update> {
    if k in w then w[k] else {}
  }

  function AddToWindow(w: Windows, u: Update): Windows {
    w[KeyOf(u) := Members(w, KeyOf(u)) + {u}]
  }

  function SetLatest(latest: Latest, u: Update): Latest {
    latest[KeyOf(u) := u]
  }

  /** A window read at `clock` compares whole seconds: from `clock - ttl` to `clock`, both included. */
  predicate Visible(u: Update, clock: Time, ttl: Time) {
    Unix(clock - ttl) <= Unix(u.timestamp) <= Unix(clock)
  }

  function InWindow(us: set<Update>, clock: Time, ttl: Time): set<Update> {
    set u | u in us && Visible(u, clock, ttl)
  }

  /** A deletion removes everything up to the second of `before`, included. */
  predicate Stale(u: Update, before: Time) {
    Unix(u.timestamp) <= Unix(before)
  }

  /** Redis drops a sorted set together with its last member. */
  function PurgeKey(w: Windows, k: Key, before: Time): Windows {
    var kept := set u | u in Members(w, k) && !Stale(u, before);
    if kept == {} then w - {k} else w[k := kept]
  }

  lemma PurgeKeyMembers(w: Windows, k: Key, before: Time, k': Key)
    ensures forall u :: u in Members(PurgeKey(w, k, before), k') <==>
              u in Members(w, k') && (k' == k ==> !Stale(u, before))
    ensures k' in PurgeKey(w, k, before)
            <==> if k' == k then Members(PurgeKey(w, k, before), k) != {} else k' in w
  {}

  /** Purging the keys one after the other. */
  function PurgeKeys(w: Windows, keys: seq<Key>, before: Time): Windows {
    if keys == [] then w else PurgeKey(PurgeKeys(w, keys[..|keys| - 1], before), keys[|keys| - 1], before)
  }

  /** Only stale entries of the keys are gone, and all of them are. */
  lemma {:induction false} PurgeKeysMembers(w: Windows, keys: seq<Key>, before: Time, k: Key)
    ensures forall u :: u in Members(PurgeKeys(w, keys, before), k) <==>
              u in Members(w, k) && (k in keys ==> Unix(u.timestamp) > Unix(before))
  {
    if keys != [] {
      var n := |keys| - 1;
      PurgeKeysMembers(w, keys[..n], before, k);
      PurgeKeyMembers(PurgeKeys(w, keys[..n], before), keys[n], before, k);
      assert keys == keys[..n] + [keys[n]];
    }
  }

  /** Every entry sits under the key made from its own fields. */
  ghost predicate WellKeyed(w: Windows) {
    forall k, u :: u in Members(w, k) ==> KeyOf(u) == k
  }

  lemma NothingStale(w: Windows, k: Key, before: Time)
    requires k in w && w[k] != {} && forall u :: u in w[k] ==> !Stale(u, before)
    ensures PurgeKey(w, k, before) == w
  {
    var kept := set u | u in Members(w, k) && !Stale(u, before);
    assert kept == w[k];
  }

  lemma PurgeKeepsKeys(w: Windows, k: Key, before: Time)
    requires WellKeyed(w)
    ensures WellKeyed(PurgeKey(w, k, before))
  {
    forall k', u | u in Members(PurgeKey(w, k, before), k')
      ensures KeyOf(u) == k'
    {
      assert u in Members(w, k');
    }
  }

  lemma AddKeepsKeys(w: Windows, u: Update)
    requires WellKeyed(w)
    ensures WellKeyed(AddToWindow(w, u))
  {
    forall k, v | v in Members(AddToWindow(w, u), k)
      ensures KeyOf(v) == k
    {
      assert v in Members(w, k) || (v == u && k == KeyOf(u));
    }
  }

  /** The windows a plain loop over `us` leaves behind. */
  function AddAll(us: seq<Update>): Windows {
    if us == [] then map[] else AddToWindow(AddAll(us[..|us| - 1]), us[|us| - 1])
  }

  /** The latest entries a plain loop over `us` leaves behind. */
  function SetAll(us: seq<Update>): Latest {
    if us == [] then map[] else SetLatest(SetAll(us[..|us| - 1]), us[|us| - 1])
  }

  /** The latest entry under `k`, if any. */
  function Entry(latest: Latest, k: Key): Option<Update> {
    if k in latest then Some(latest[k]) else None
  }

  lemma SetAllAppend(us: seq<Update>, v: Update, k: Key)
    ensures SetAll(us + [v]) == SetLatest(SetAll(us), v)
    ensures Entry(SetAll(us + [v]), k) == if KeyOf(v) == k then Some(v) else Entry(SetAll(us), k)
  {
    assert (us + [v])[..|us|] == us;
  }

  lemma {:induction false} AddAllContents(us: seq<Update>, k: Key)
    ensures k in AddAll(us) <==> exists i :: 0 <= i < |us| && KeyOf(us[i]) == k
    ensures forall u :: u in Members(AddAll(us), k) <==> u in us && KeyOf(u) == k
  {
    if us != [] {
      var n := |us| - 1;
      AddAllContents(us[..n], k);
      assert us == us[..n] + [us[n]];
      if k in AddAll(us) && k != KeyOf(us[n]) {
        var i :| 0 <= i < n && KeyOf(us[..n][i]) == k;
        assert KeyOf(us[i]) == k;
      }
      if i :| 0 <= i < |us| && KeyOf(us[i]) == k {
        assert i < n ==> us[..n][i] == us[i];
      }
    }
  }

  /** Windows do not depend on the order in which updates arrive, nor on repetitions. */
  lemma AddAllOrderFree(us: seq<Update>, vs: seq<Update>)
    requires forall u :: u in us <==> u in vs
    ensures AddAll(us) == AddAll(vs)
  {
    forall k: Key
      ensures k in AddAll(us) <==> k in AddAll(vs)
      ensures Members(AddAll(us), k) == Members(AddAll(vs), k)
    {
      AddAllContents(us, k);
      AddAllContents(vs, k);
      if i :| 0 <= i < |us| && KeyOf(us[i]) == k { assert us[i] in vs; }
      if i :| 0 <= i < |vs| && KeyOf(vs[i]) == k { assert vs[i] in us; }
    }
    forall k | k in AddAll(us)
      ensures AddAll(us)[k] == AddAll(vs)[k]
    {
      assert Members(AddAll(us), k) == Members(AddAll(vs), k);
    }
  }
}
