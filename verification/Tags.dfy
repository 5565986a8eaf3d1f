/** The tag index as a value: a list of keys per tag (internal/cache/invalidator.go). */
module Tags {
  import opened Entries
  import opened Sequences

  type Index = map<Tag, seq<Key>>

  predicate WellFormed(idx: Index) {
    forall t | t in idx :: idx[t] != [] && NoDup(idx[t])
  }

  function ListOf(idx: Index, t: Tag): seq<Key> {
    if t in idx then idx[t] else []
  }

  predicate HasTag(idx: Index, k: Key, t: Tag) {
    k in ListOf(idx, t)
  }

  // ----- The updates the code makes, each under the lock -----

  function AddOne(idx: Index, k: Key, t: Tag): Index {
    if HasTag(idx, k, t) then idx else idx[t := ListOf(idx, t) + [k]]
  }

  function AddAll(idx: Index, k: Key, tags: seq<Tag>): Index {
    if tags == [] then idx else AddOne(AddAll(idx, k, tags[..|tags| - 1]), k, tags[|tags| - 1])
  }

  /** Drops the first match only, as the splice does. */
  function DropFirst(s: seq<Key>, k: Key): seq<Key> {
    if s == [] then []
    else if s[0] == k then s[1..]
    else [s[0]] + DropFirst(s[1..], k)
  }

  /** Stores a list under a tag, or removes the tag when the list is empty. */
  function Relist(idx: Index, t: Tag, list: seq<Key>): Index {
    if list == [] then idx - {t} else idx[t := list]
  }

  function RemoveKey(idx: Index, k: Key): Index {
    map t | t in idx && DropFirst(idx[t], k) != [] :: DropFirst(idx[t], k)
  }

  function DropTags(idx: Index, tags: seq<Tag>): Index {
    idx - set t | t in tags
  }

  /** The keys listed under the given tags, in the order in which they are snapshotted. */
  function KeysUnder(idx: Index, tags: seq<Tag>): seq<Key> {
    if tags == [] then [] else KeysUnder(idx, tags[..|tags| - 1]) + ListOf(idx, tags[|tags| - 1])
  }

  function KeySet(idx: Index, tags: seq<Tag>): set<Key> {
    set k | k in KeysUnder(idx, tags)
  }

  /** The list with only the first occurrence of each key. */
  function Unique(s: seq<Key>): seq<Key> {
    if s == [] then []
    else
      var init, last := s[..|s| - 1], s[|s| - 1];
      Unique(init) + if last in init then [] else [last]
  }

  // ----- Lists -----

  /** The list without the given keys, the rest in the same order. */
  function Without(s: seq<Key>, gone: set<Key>): seq<Key> {
    if s == [] then []
    else (if s[0] in gone then [] else [s[0]]) + Without(s[1..], gone)
  }

  lemma {:induction false} WithoutElements(s: seq<Key>, gone: set<Key>)
    ensures forall k :: k in Without(s, gone) <==> k in s && k !in gone
    ensures NoDup(s) ==> NoDup(Without(s, gone))
  {
    if s != [] {
      WithoutElements(s[1..], gone);
      assert s == [s[0]] + s[1..];
      if NoDup(s) {
        assert NoDup(s[1..]);
        assert s[0] !in s[1..];
        var rest := Without(s[1..], gone);
        assert s[0] !in rest;
      }
    }
  }

  lemma {:induction false} WithoutTwice(s: seq<Key>, a: set<Key>, b: set<Key>)
    ensures Without(Without(s, a), b) == Without(s, a + b)
  {
    if s != [] {
      WithoutTwice(s[1..], a, b);
      var rest := Without(s[1..], a);
      if s[0] !in a {
        assert ([s[0]] + rest)[1..] == rest;
      } else {
        assert [] + rest == rest;
      }
    }
  }

  lemma {:induction false} WithoutNone(s: seq<Key>, gone: set<Key>)
    requires forall k | k in s :: k !in gone
    ensures Without(s, gone) == s
  {
    if s != [] {
      WithoutNone(s[1..], gone);
      assert s[0] in s;
    }
  }

  lemma {:induction false} SpliceTakesFrom(s: seq<Key>, k: Key)
    ensures multiset(DropFirst(s, k)) == multiset(s) - multiset{k}
  {
    if s != [] {
      var rest := s[1..];
      assert s == [s[0]] + rest;
      assert multiset(s) == multiset{s[0]} + multiset(rest);
      if s[0] != k {
        SpliceTakesFrom(rest, k);
        assert DropFirst(s, k) == [s[0]] + DropFirst(rest, k);
        assert multiset(DropFirst(s, k)) == multiset{s[0]} + multiset(DropFirst(rest, k));
      }
    }
  }

  /** The splice takes exactly one occurrence away, so it leaves the key in the list iff the list
      held it twice. */
  lemma SpliceTakesOne(s: seq<Key>, k: Key)
    ensures multiset(DropFirst(s, k)) == multiset(s) - multiset{k}
    ensures k in DropFirst(s, k) <==> multiset(s)[k] >= 2
  {
    SpliceTakesFrom(s, k);
    assert k in DropFirst(s, k) <==> k in multiset(DropFirst(s, k));
  }

  lemma {:induction false} SpliceAt(s: seq<Key>, k: Key, i: nat)
    requires i < |s| && s[i] == k && k !in s[..i]
    ensures DropFirst(s, k) == s[..i] + s[i + 1..]
  {
    if i > 0 {
      assert s[0] == s[..i][0];
      assert s[1..][..i - 1] == s[..i][1..];
      SpliceAt(s[1..], k, i - 1);
    }
  }

  lemma {:induction false} NothingToSplice(s: seq<Key>, k: Key)
    requires k !in s
    ensures DropFirst(s, k) == s
  {
    if s != [] {
      NothingToSplice(s[1..], k);
    }
  }

  /** On a duplicate-free list one splice is the whole removal. */
  lemma {:induction false} SpliceIsRemoval(s: seq<Key>, k: Key)
    requires NoDup(s)
    ensures DropFirst(s, k) == Without(s, {k})
  {
    if s != [] {
      assert NoDup(s[1..]);
      if s[0] == k {
        assert k !in s[1..];
        WithoutNone(s[1..], {k});
      } else {
        SpliceIsRemoval(s[1..], k);
      }
    }
  }

  lemma {:induction false} UniqueElements(s: seq<Key>)
    ensures forall k :: k in Unique(s) <==> k in s
    ensures NoDup(Unique(s))
  {
    if s != [] {
      var init := s[..|s| - 1];
      UniqueElements(init);
      assert s == init + [s[|s| - 1]];
    }
  }

  lemma UniqueMore(s: seq<Key>, k: Key)
    ensures Unique(s + [k]) == Unique(s) + if k in s then [] else [k]
  {
    assert (s + [k])[..|s|] == s;
  }

  // ----- What the updates mean for the relation "key has tag" -----

  lemma TaggingAddsOne(idx: Index, k: Key, t: Tag)
    ensures forall t' :: ListOf(AddOne(idx, k, t), t')
                         == ListOf(idx, t') + if t' == t && !HasTag(idx, k, t) then [k] else []
    ensures WellFormed(idx) ==> WellFormed(AddOne(idx, k, t))
  {
  }

  /** TagKey adds the key at the end of each list it was asked for that lacked it. */
  lemma {:induction false} TaggingAppends(idx: Index, k: Key, tags: seq<Tag>, t: Tag)
    ensures ListOf(AddAll(idx, k, tags), t) == ListOf(idx, t) + if t in tags && !HasTag(idx, k, t) then [k] else []
  {
    if tags != [] {
      var init, last := tags[..|tags| - 1], tags[|tags| - 1];
      TaggingAppends(idx, k, init, t);
      assert t in tags <==> t in init || t == last;
      TaggingAddsOne(AddAll(idx, k, init), k, last);
    }
  }

  lemma {:induction false} TaggingKeepsForm(idx: Index, k: Key, tags: seq<Tag>)
    requires WellFormed(idx)
    ensures WellFormed(AddAll(idx, k, tags))
  {
    if tags != [] {
      TaggingKeepsForm(idx, k, tags[..|tags| - 1]);
      TaggingAddsOne(AddAll(idx, k, tags[..|tags| - 1]), k, tags[|tags| - 1]);
    }
  }

  /** TagKey adds exactly the pairs asked for. */
  lemma TaggingAdds(idx: Index, k: Key, tags: seq<Tag>)
    ensures forall k', t :: HasTag(AddAll(idx, k, tags), k', t) <==> HasTag(idx, k', t) || (k' == k && t in tags)
  {
    forall k', t
      ensures HasTag(AddAll(idx, k, tags), k', t) <==> HasTag(idx, k', t) || (k' == k && t in tags)
    {
      TaggingAppends(idx, k, tags, t);
    }
  }

  /** removeKeyFromTags takes exactly the key's pairs away, leaves the order of the others, and drops
      a tag iff nothing is left under it. */
  lemma RemovalRemoves(idx: Index, k: Key)
    requires WellFormed(idx)
    ensures forall t :: ListOf(RemoveKey(idx, k), t) == Without(ListOf(idx, t), {k})
    ensures forall k', t :: HasTag(RemoveKey(idx, k), k', t) <==> HasTag(idx, k', t) && k' != k
    ensures WellFormed(RemoveKey(idx, k))
    ensures forall t :: t in RemoveKey(idx, k) <==> t in idx && Without(idx[t], {k}) != []
  {
    forall t
      ensures t in idx ==> DropFirst(idx[t], k) == Without(idx[t], {k}) && NoDup(Without(idx[t], {k}))
      ensures forall k' :: k' in Without(ListOf(idx, t), {k}) <==> HasTag(idx, k', t) && k' != k
    {
      WithoutElements(ListOf(idx, t), {k});
      if t in idx {
        SpliceIsRemoval(idx[t], k);
      }
    }
  }

  /** What one InvalidateByTags does to the index when the deletes of the keys in failed fail. */
  function Invalidated(idx: Index, tags: seq<Tag>, failed: set<Key>): Index {
    DropTags(RemoveAll(idx, KeySet(idx, tags) - failed), tags)
  }

  function RemoveAll(idx: Index, gone: set<Key>): Index {
    map t | t in idx && Without(idx[t], gone) != [] :: Without(idx[t], gone)
  }

  lemma {:induction false} UnderSomeTag(idx: Index, tags: seq<Tag>)
    ensures forall k :: k in KeysUnder(idx, tags) <==> exists t :: t in tags && HasTag(idx, k, t)
  {
    if tags != [] {
      var init, last := tags[..|tags| - 1], tags[|tags| - 1];
      UnderSomeTag(idx, init);
      forall k
        ensures k in KeysUnder(idx, tags) <==> exists t :: t in tags && HasTag(idx, k, t)
      {
        if exists t :: t in tags && HasTag(idx, k, t) {
          var t :| t in tags && HasTag(idx, k, t);
          if t != last {
            assert t in init;
          }
        }
        if k in ListOf(idx, last) {
          assert last in tags && HasTag(idx, k, last);
        }
        if exists t :: t in init && HasTag(idx, k, t) {
          var t :| t in init && HasTag(idx, k, t);
          assert t in tags;
        }
      }
    }
  }

  lemma EmptyKeyIsUnderNone(idx: Index, tags: seq<Tag>)
    requires forall t :: !HasTag(idx, "", t)
    ensures "" !in KeysUnder(idx, tags)
  {
    UnderSomeTag(idx, tags);
  }

  /** The given tags are gone. Every other tag keeps its list minus exactly the invalidated keys, in
      the same order, and vanishes iff that is empty. */
  lemma InvalidationEffect(idx: Index, tags: seq<Tag>, failed: set<Key>)
    requires WellFormed(idx)
    ensures
      var after := Invalidated(idx, tags, failed);
      var hit := KeySet(idx, tags) - failed;
      && WellFormed(after)
      && (forall t | t in tags :: t !in after)
      && (forall t | t !in tags :: ListOf(after, t) == Without(ListOf(idx, t), hit))
      && (forall t | t !in tags :: t in after <==> Without(ListOf(idx, t), hit) != [])
      && (forall k, t :: HasTag(after, k, t) <==>
            HasTag(idx, k, t) && t !in tags && (k in failed || !exists t' :: t' in tags && HasTag(idx, k, t')))
  {
    var hit := KeySet(idx, tags) - failed;
    var after := Invalidated(idx, tags, failed);
    UnderSomeTag(idx, tags);
    forall t
      ensures t !in tags ==> ListOf(after, t) == Without(ListOf(idx, t), hit)
      ensures t in after ==> NoDup(after[t])
      ensures forall k :: k in Without(ListOf(idx, t), hit) <==> HasTag(idx, k, t) && k !in hit
    {
      WithoutElements(ListOf(idx, t), hit);
    }
    forall k, t
      ensures HasTag(after, k, t) <==> HasTag(idx, k, t) && t !in tags && k !in hit
    {
      if t !in tags {
        assert ListOf(after, t) == Without(ListOf(idx, t), hit);
      }
    }
    assert forall k :: k in hit <==> k !in failed && exists t :: t in tags && HasTag(idx, k, t);
  }

  lemma {:induction false} EmptyLists(idx: Index, tags: seq<Tag>, t: Tag)
    requires KeysUnder(idx, tags) == [] && t in tags
    ensures ListOf(idx, t) == []
  {
    var init, last := tags[..|tags| - 1], tags[|tags| - 1];
    assert KeysUnder(idx, init) == [] && ListOf(idx, last) == [];
    if t != last {
      EmptyLists(idx, init, t);
    }
  }

  /** Invalidating tags nobody has is no change. */
  lemma NothingTagged(idx: Index, tags: seq<Tag>, failed: set<Key>)
    requires WellFormed(idx) && KeysUnder(idx, tags) == []
    ensures Invalidated(idx, tags, failed) == idx
  {
    forall t
      ensures t in tags ==> t !in idx
      ensures t in idx ==> Without(idx[t], {}) == idx[t]
    {
      if t in tags {
        EmptyLists(idx, tags, t);
      }
      if t in idx {
        WithoutNone(idx[t], {});
      }
    }
    assert KeySet(idx, tags) - failed == {};
  }

  /** removeKeyFromTags with the tags in todo still to visit. */
  function HalfRemoved(idx: Index, k: Key, todo: set<Tag>): Index {
    map t | t in idx && (t in todo || DropFirst(idx[t], k) != []) ::
      if t in todo then idx[t] else DropFirst(idx[t], k)
  }

  lemma VisitNoneOrAll(idx: Index, k: Key)
    ensures HalfRemoved(idx, k, idx.Keys) == idx
    ensures HalfRemoved(idx, k, {}) == RemoveKey(idx, k)
  {
  }

  lemma VisitOneTag(idx: Index, k: Key, todo: set<Tag>, t: Tag)
    requires t in todo && todo <= idx.Keys
    ensures t in HalfRemoved(idx, k, todo) && HalfRemoved(idx, k, todo)[t] == idx[t]
    ensures Relist(HalfRemoved(idx, k, todo), t, DropFirst(idx[t], k)) == HalfRemoved(idx, k, todo - {t})
  {
  }

  lemma RemoveOneMoreFrom(list: seq<Key>, gone: set<Key>, k: Key)
    requires NoDup(list)
    ensures NoDup(Without(list, gone))
    ensures DropFirst(Without(list, gone), k) == Without(list, gone + {k})
    ensures Without(list, gone) == [] ==> Without(list, gone + {k}) == []
  {
    WithoutTwice(list, gone, {k});
    WithoutElements(list, gone);
    SpliceIsRemoval(Without(list, gone), k);
  }

  /** Removing the keys of a set one by one, in any order, is RemoveAll. */
  lemma RemoveOneMore(idx: Index, gone: set<Key>, k: Key)
    requires WellFormed(idx)
    ensures RemoveKey(RemoveAll(idx, gone), k) == RemoveAll(idx, gone + {k})
    ensures WellFormed(RemoveAll(idx, gone))
  {
    var some := RemoveAll(idx, gone);
    forall t | t in idx
      ensures t in some ==> some[t] == Without(idx[t], gone) && NoDup(some[t])
      ensures t in some ==> DropFirst(some[t], k) == Without(idx[t], gone + {k})
      ensures t !in some ==> Without(idx[t], gone + {k}) == []
    {
      RemoveOneMoreFrom(idx[t], gone, k);
    }
  }

  lemma RemoveNone(idx: Index)
    requires WellFormed(idx)
    ensures RemoveAll(idx, {}) == idx
  {
    forall t | t in idx
      ensures Without(idx[t], {}) == idx[t]
    {
      WithoutNone(idx[t], {});
    }
  }

  // ----- Whole runs -----

  /** The atomic updates any interleaving of TagKey, InvalidateKey and InvalidateByTags is made of. */
  datatype Op =
    | TagKey(key: Key, tags: seq<Tag>)
    | Untag(key: Key)
    | Forget(tags: seq<Tag>)

  function Apply(idx: Index, op: Op): Index {
    match op
    case TagKey(k, tags) => if k == "" then idx else AddAll(idx, k, tags)
    case Untag(k) => RemoveKey(idx, k)
    case Forget(tags) => DropTags(idx, tags)
  }

  function Run(ops: seq<Op>): Index {
    if ops == [] then map[] else Apply(Run(ops[..|ops| - 1]), ops[|ops| - 1])
  }

  /** The simple relation the index has to agree with. */
  function Related(ops: seq<Op>): set<(Key, Tag)> {
    if ops == [] then {}
    else
      var before := Related(ops[..|ops| - 1]);
      match ops[|ops| - 1]
      case TagKey(k, tags) => if k == "" then before else before + set t | t in tags :: (k, t)
      case Untag(k) => set p | p in before && p.0 != k
      case Forget(tags) => set p | p in before && p.1 !in tags
  }

  /** In every run each stored list is non-empty and duplicate-free, the empty key is under no tag, and
      the index is the relation. */
  lemma {:induction false} IndexIsTheRelation(ops: seq<Op>)
    ensures WellFormed(Run(ops))
    ensures forall k, t :: HasTag(Run(ops), k, t) <==> (k, t) in Related(ops)
    ensures forall t :: !HasTag(Run(ops), "", t)
  {
    if ops != [] {
      var before, op := ops[..|ops| - 1], ops[|ops| - 1];
      IndexIsTheRelation(before);
      match op
      case TagKey(k, tags) => TaggingAdds(Run(before), k, tags); TaggingKeepsForm(Run(before), k, tags);
      case Untag(k) => RemovalRemoves(Run(before), k);
      case Forget(tags) =>
    }
  }

  // ----- Tagging while tags are being invalidated -----

  function RunFrom(idx: Index, ops: seq<Op>): Index {
    if ops == [] then idx else Apply(RunFrom(idx, ops[..|ops| - 1]), ops[|ops| - 1])
  }

  predicate Ties(op: Op, k: Key, t: Tag) {
    op.TagKey? && op.key == k && k != "" && t in op.tags
  }

  predicate Unties(op: Op, k: Key, t: Tag) {
    (op.Untag? && op.key == k) || (op.Forget? && t in op.tags)
  }

  /** Nothing from ops[p] on unties k from t. */
  predicate Stands(ops: seq<Op>, p: nat, k: Key, t: Tag) {
    forall q | p <= q < |ops| :: !Unties(ops[q], k, t)
  }

  /** Some ops[p] ties k to t and nothing after it unties them. */
  predicate TiedLast(ops: seq<Op>, k: Key, t: Tag) {
    exists p | 0 <= p < |ops| :: Ties(ops[p], k, t) && Stands(ops, p, k, t)
  }

  lemma OneOp(idx: Index, op: Op, k: Key, t: Tag)
    requires WellFormed(idx)
    ensures WellFormed(Apply(idx, op))
    ensures HasTag(Apply(idx, op), k, t) <==> Ties(op, k, t) || (HasTag(idx, k, t) && !Unties(op, k, t))
  {
    match op
    case TagKey(k', tags) => TaggingAdds(idx, k', tags); TaggingKeepsForm(idx, k', tags);
    case Untag(k') => RemovalRemoves(idx, k');
    case Forget(tags) =>
  }

  lemma OneMoreOp(ops: seq<Op>, k: Key, t: Tag)
    requires ops != []
    ensures
      var before, op := ops[..|ops| - 1], ops[|ops| - 1];
      && (Stands(ops, 0, k, t) <==> Stands(before, 0, k, t) && !Unties(op, k, t))
      && (TiedLast(ops, k, t) <==> Ties(op, k, t) || (TiedLast(before, k, t) && !Unties(op, k, t)))
  {
    var n := |ops| - 1;
    var before, op := ops[..n], ops[n];
    assert ops == before + [op];
    if Ties(op, k, t) {
      assert Stands(ops, n, k, t);
    }
    if TiedLast(before, k, t) && !Unties(op, k, t) {
      var p :| 0 <= p < n && Ties(before[p], k, t) && Stands(before, p, k, t);
      assert forall q | p <= q < n :: ops[q] == before[q];
      assert Ties(ops[p], k, t) && Stands(ops, p, k, t);
    }
    if TiedLast(ops, k, t) && !Ties(op, k, t) {
      var p :| 0 <= p <= n && Ties(ops[p], k, t) && Stands(ops, p, k, t);
      assert forall q | p <= q < n :: before[q] == ops[q];
      assert Ties(before[p], k, t) && Stands(before, p, k, t);
    }
    if Stands(ops, 0, k, t) {
      assert !Unties(ops[n], k, t);
      assert forall q | 0 <= q < n :: before[q] == ops[q];
    }
  }

  /** From any index on, a key has a tag iff the last update to touch the pair tied it, or none did and
      it had the tag at the start. */
  lemma {:induction false} LastUpdateDecides(idx: Index, ops: seq<Op>, k: Key, t: Tag)
    requires WellFormed(idx)
    ensures WellFormed(RunFrom(idx, ops))
    ensures HasTag(RunFrom(idx, ops), k, t) <==> TiedLast(ops, k, t) || (HasTag(idx, k, t) && Stands(ops, 0, k, t))
  {
    if ops != [] {
      var before, op := ops[..|ops| - 1], ops[|ops| - 1];
      LastUpdateDecides(idx, before, k, t);
      OneOp(RunFrom(idx, before), op, k, t);
      OneMoreOp(ops, k, t);
    }
  }

  /** The updates between the snapshot of one InvalidateByTags and its clean-up: TagKey calls of others,
      and the untaggings by its own workers, one or more for each snapshotted key but those that failed. */
  predicate Window(idx: Index, tags: seq<Tag>, failed: set<Key>, window: seq<Op>) {
    var hit := KeySet(idx, tags) - failed;
    && (forall op | op in window :: op.TagKey? || (op.Untag? && op.key in hit))
    && (forall k | k in hit :: Untag(k) in window)
  }

  /** The end of the call: with nothing snapshotted it has returned before the clean-up. */
  function CleanedUp(idx: Index, tags: seq<Tag>, before: Index): Index {
    if KeysUnder(idx, tags) == [] then before else DropTags(before, tags)
  }

  /** What the end of the call takes away is nothing if the snapshot was empty, and else exactly: the pairs
      of failed keys, and the pairs made in the window after the key's last untagging. So the pairs lost by
      keys this call never invalidated are those of failed keys and those made in the window. */
  lemma TagsLostToTheWindow(idx: Index, tags: seq<Tag>, failed: set<Key>, window: seq<Op>)
    requires WellFormed(idx) && Window(idx, tags, failed, window)
    ensures
      var before := RunFrom(idx, window);
      var after := CleanedUp(idx, tags, before);
      && (forall k, t :: HasTag(before, k, t) && !HasTag(after, k, t) <==>
            && KeysUnder(idx, tags) != [] && t in tags
            && (TiedLast(window, k, t) || (k in failed && HasTag(idx, k, t))))
      && (forall k, t | k !in KeySet(idx, tags) - failed :: HasTag(before, k, t) && !HasTag(after, k, t) <==>
            && KeysUnder(idx, tags) != [] && t in tags
            && (HasTag(idx, k, t) || exists op :: op in window && Ties(op, k, t)))
  {
    var before := RunFrom(idx, window);
    forall k, t | t in tags
      ensures HasTag(before, k, t) <==> TiedLast(window, k, t) || (k in failed && HasTag(idx, k, t))
      ensures k !in KeySet(idx, tags) - failed ==>
                (HasTag(before, k, t) <==> HasTag(idx, k, t) || exists op :: op in window && Ties(op, k, t))
    {
      LastUpdateDecides(idx, window, k, t);
      UnderSomeTag(idx, tags);
      if k in KeySet(idx, tags) - failed {
        UntaggedInWindow(window, k, t);
      } else {
        NeverUntaggedInWindow(idx, tags, failed, window, k, t);
      }
    }
  }

  /** Such a loss happens: j has the tag when it is invalidated, k is given it in the window. k has no tag in
      the end, and nothing in the window untagged it. */
  lemma WindowLosesATag(j: Key, k: Key, t: Tag)
    requires j != k && j != "" && k != ""
    ensures
      var idx: Index := map[t := [j]];
      var window := [TagKey(k, [t]), Untag(j)];
      && WellFormed(idx) && Window(idx, [t], {}, window)
      && HasTag(RunFrom(idx, window), k, t)
      && !HasTag(CleanedUp(idx, [t], RunFrom(idx, window)), k, t)
      && Untag(k) !in window
  {
    var idx: Index := map[t := [j]];
    var window := [TagKey(k, [t]), Untag(j)];
    UnderSomeTag(idx, [t]);
    assert HasTag(idx, j, t);
    assert forall x :: x in KeySet(idx, [t]) <==> x == j;
    assert Untag(j) in window;
    TagsLostToTheWindow(idx, [t], {}, window);
    assert Ties(window[0], k, t) && !Unties(window[0], k, t) && !Unties(window[1], k, t);
    assert window[0] in window;
    assert j in KeysUnder(idx, [t]);
  }

  /** And it does not when the snapshot was empty, though the window looks the same otherwise. */
  lemma EmptySnapshotLosesNone(k: Key, t: Tag)
    requires k != ""
    ensures
      var window := [TagKey(k, [t])];
      && Window(map[], [t], {}, window)
      && HasTag(CleanedUp(map[], [t], RunFrom(map[], window)), k, t)
  {
    var window := [TagKey(k, [t])];
    assert KeysUnder(map[], [t]) == KeysUnder(map[], [t][..0]) + ListOf(map[], t) == [];
    LastUpdateDecides(map[], window, k, t);
    assert Ties(window[0], k, t) && Stands(window, 0, k, t);
  }

  lemma UntaggedInWindow(window: seq<Op>, k: Key, t: Tag)
    requires Untag(k) in window
    ensures !Stands(window, 0, k, t)
  {
    var q :| 0 <= q < |window| && window[q] == Untag(k);
    assert Unties(window[q], k, t);
  }

  lemma NeverUntaggedInWindow(idx: Index, tags: seq<Tag>, failed: set<Key>, window: seq<Op>, k: Key, t: Tag)
    requires Window(idx, tags, failed, window) && k !in KeySet(idx, tags) - failed
    ensures Stands(window, 0, k, t)
    ensures TiedLast(window, k, t) <==> exists op :: op in window && Ties(op, k, t)
  {
    assert forall q | 0 <= q < |window| :: window[q] in window;
    if exists op :: op in window && Ties(op, k, t) {
      var op :| op in window && Ties(op, k, t);
      var p :| 0 <= p < |window| && window[p] == op;
      assert Stands(window, p, k, t);
    }
  }
}
