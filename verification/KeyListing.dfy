/** `MemoryBackend.Keys` on a flat map: it recovers the children of a prefix from the keys
    by string work, skipping a key when an already listed one is a string prefix of it, so
    the answer can depend on the map's iteration order. */
module KeyListing {
  import opened Collections
  import opened Strings
  import opened Paths

  /** Rebuilding a child key joins the first entries one by one. */
  function JoinAll(entries: seq<string>): string {
    if entries == [] then "" else Join(JoinAll(entries[..|entries| - 1]), entries[|entries| - 1])
  }

  /** The child of `prefix` that a key below it belongs to; None is an index out of range. */
  function ChildKey(key: string, prefix: string): Option<string> {
    var entries := Split(TrimLeft(key));
    var depth := Count(prefix) + 1;
    if depth > |entries| then None else Some("/" + JoinAll(entries[..depth]))
  }

  predicate Covered(key: string, keys: seq<string>) {
    exists i :: 0 <= i < |keys| && HasPrefix(key, keys[i])
  }

  /** One iteration of the loop over the items. */
  function KeysStep(key: string, prefix: string, keys: seq<string>): Option<seq<string>> {
    if Covered(key, keys) then Some(keys)
    else if !HasPrefix(key, prefix) then Some(keys)
    else if key == prefix then Some(keys + [key])
    else
      var child := ChildKey(key, prefix);
      if child.None? then None else Some(keys + [child.value])
  }

  /** The whole loop over the items in the order `items`; None is the index panic. */
  function KeysLoop(items: seq<string>, prefix: string, keys: seq<string>): Option<seq<string>>
    decreases |items|
  {
    if items == [] then Some(keys)
    else
      var next := KeysStep(items[0], prefix, keys);
      if next.None? then None else KeysLoop(items[1..], prefix, next.value)
  }

  lemma {:induction false} KeysLoopAppend(items: seq<string>, last: string, prefix: string, keys: seq<string>)
    ensures KeysLoop(items + [last], prefix, keys) ==
      var r := KeysLoop(items, prefix, keys);
      if r.None? then None else KeysStep(last, prefix, r.value)
    decreases |items|
  {
    if items == [] {
      assert items + [last] == [last] && [last][1..] == [];
    } else {
      assert (items + [last])[1..] == items[1..] + [last];
      var next := KeysStep(items[0], prefix, keys);
      if next.Some? {
        KeysLoopAppend(items[1..], last, prefix, next.value);
      }
    }
  }

  // ---- the same on segments ----

  type Path = seq<string>

  function Child(key: Path, prefix: Path): Path
    requires key != prefix ==> |key| > |prefix|
  {
    if key == prefix then prefix else key[..|prefix| + 1]
  }

  function RenderAll(ps: seq<Path>): (r: seq<string>)
    ensures |r| == |ps|
    ensures forall i :: 0 <= i < |ps| ==> r[i] == Render(ps[i])
  {
    if ps == [] then [] else RenderAll(ps[..|ps| - 1]) + [Render(ps[|ps| - 1])]
  }

  predicate AllSegments(ps: seq<Path>) {
    forall i :: 0 <= i < |ps| ==> Segments(ps[i]) && ps[i] != []
  }

  /** `order` lists the paths of `store`, each once. */
  ghost predicate Enumerates(order: seq<Path>, store: set<Path>) {
    Distinct(order) && (forall p :: p in order <==> p in store)
  }

  /** Listing `prefix` does not depend on the order: no index panic is possible, and a listed
      child only hides keys that belong to the same child. */
  ghost predicate Stable(store: set<Path>, prefix: Path) {
    && (forall b {:trigger Under(b, prefix)} :: b in store && Under(b, prefix) && b != prefix ==> |b| > |prefix|)
    && (forall b, c {:trigger Under(c, Child(b, prefix))}
          | b in store && c in store && Under(b, prefix) && Under(c, prefix) && Under(c, Child(b, prefix)) ::
          Child(b, prefix) == Child(c, prefix))
  }

  /** The children a listing should report: one for each key that starts with the prefix. */
  ghost function Children(store: set<Path>, prefix: Path): set<Path> {
    set b | b in store && Under(b, prefix) && (b != prefix ==> |b| > |prefix|) :: Child(b, prefix)
  }

  /** The loop, in the given order, reports each child once and nothing else. */
  ghost predicate ListsExactly(order: seq<Path>, store: set<Path>, prefix: Path) {
    exists r: seq<Path> ::
      && KeysLoop(RenderAll(order), Render(prefix), []) == Some(RenderAll(r))
      && AllSegments(r) && Distinct(r) && (forall c :: c in r <==> c in Children(store, prefix))
  }

  lemma {:induction false} JoinAllSegments(p: Path)
    requires Segments(p)
    ensures JoinAll(p) == Relative(p)
  {
    if p != [] {
      var n := |p| - 1;
      JoinAllSegments(p[..n]);
      JoinAppendsRelative(p[..n], p[n]);
      assert p[..n] + [p[n]] == p;
    }
  }

  lemma ChildKeyRendered(key: Path, prefix: Path)
    requires Segments(key) && Segments(prefix) && key != []
    ensures ChildKey(Render(key), Render(prefix)) ==
      if |key| > |prefix| then Some(Render(key[..|prefix| + 1])) else None
  {
    var entries, depth := Split(TrimLeft(Render(key))), Count(Render(prefix)) + 1;
    assert entries == key by { EntriesRendered(key); }
    assert depth == |prefix| + 1 by { CountRender(prefix); }
    if |key| > |prefix| {
      SlashedJoin(key[..depth]);
    }
  }

  lemma EntriesRendered(key: Path)
    requires Segments(key) && key != []
    ensures Split(TrimLeft(Render(key))) == key
  {
    TrimRender(key);
    SplitRelative(key);
  }

  lemma SlashedJoin(c: Path)
    requires Segments(c) && c != []
    ensures "/" + JoinAll(c) == Render(c)
  {
    JoinAllSegments(c);
    RenderRelative(c);
  }

  /** A key is covered by the keys listed so far when it starts with one of them. */
  predicate CoveredPath(key: Path, keys: seq<Path>) {
    exists i :: 0 <= i < |keys| && Under(key, keys[i])
  }

  lemma CoveredRendered(key: Path, keys: seq<Path>)
    requires Segments(key) && AllSegments(keys)
    ensures Covered(Render(key), RenderAll(keys)) <==> CoveredPath(key, keys)
  {
    forall i | 0 <= i < |keys| ensures HasPrefix(Render(key), RenderAll(keys)[i]) <==> Under(key, keys[i]) {
      PrefixOfRendered(key, keys[i]);
    }
  }

  /** One iteration, on segments. */
  function PathStep(key: Path, prefix: Path, keys: seq<Path>): Option<seq<Path>> {
    if CoveredPath(key, keys) || !Under(key, prefix) then Some(keys)
    else if key == prefix then Some(keys + [key])
    else if |key| > |prefix| then Some(keys + [key[..|prefix| + 1]])
    else None
  }

  function PathLoop(items: seq<Path>, prefix: Path, keys: seq<Path>): Option<seq<Path>>
    decreases |items|
  {
    if items == [] then Some(keys)
    else
      var next := PathStep(items[0], prefix, keys);
      if next.None? then None else PathLoop(items[1..], prefix, next.value)
  }

  lemma StepRendered(key: Path, prefix: Path, keys: seq<Path>)
    requires Segments(key) && key != [] && Segments(prefix) && prefix != [] && AllSegments(keys)
    ensures var s := PathStep(key, prefix, keys);
      && KeysStep(Render(key), Render(prefix), RenderAll(keys)) == (if s.None? then None else Some(RenderAll(s.value)))
      && (s.Some? ==> AllSegments(s.value))
  {
    CoveredRendered(key, keys);
    PrefixOfRendered(key, prefix);
    RenderInjective(key, prefix);
    ChildKeyRendered(key, prefix);
    var s := PathStep(key, prefix, keys);
    if s.Some? && s.value != keys {
      assert s.value[..|s.value| - 1] == keys;
    }
  }

  /** The string loop on rendered keys is the segment loop. */
  lemma {:induction false} LoopRendered(items: seq<Path>, prefix: Path, keys: seq<Path>)
    requires AllSegments(items) && Segments(prefix) && prefix != [] && AllSegments(keys)
    ensures var r := PathLoop(items, prefix, keys);
      && KeysLoop(RenderAll(items), Render(prefix), RenderAll(keys)) ==
           (if r.None? then None else Some(RenderAll(r.value)))
      && (r.Some? ==> AllSegments(r.value))
    decreases |items|
  {
    if items != [] {
      StepRendered(items[0], prefix, keys);
      RenderAllTail(items);
      var next := PathStep(items[0], prefix, keys);
      if next.Some? {
        LoopRendered(items[1..], prefix, next.value);
      }
    }
  }

  lemma RenderAllTail(ps: seq<Path>)
    requires ps != []
    ensures RenderAll(ps)[0] == Render(ps[0]) && RenderAll(ps)[1..] == RenderAll(ps[1..])
  {
    assert forall i :: 0 <= i < |ps| - 1 ==> RenderAll(ps)[1..][i] == Render(ps[i + 1]) == RenderAll(ps[1..])[i];
  }

  /** What the loop has reported after some of the store's keys: their children, each once. */
  ghost predicate Reported(keys: seq<Path>, done: set<Path>, store: set<Path>, prefix: Path) {
    Distinct(keys) && done <= store && (forall c :: c in keys <==> c in Children(done, prefix))
  }

  lemma {:induction false} LoopReports(
      items: seq<Path>, prefix: Path, keys: seq<Path>, done: set<Path>, store: set<Path>)
    requires Stable(store, prefix) && Reported(keys, done, store, prefix) && prefix != []
    requires forall p :: p in items ==> p in store
    ensures var r := PathLoop(items, prefix, keys);
      r.Some? && Reported(r.value, done + (set p | p in items), store, prefix)
    decreases |items|
  {
    if items == [] {
      assert done + (set p | p in items) == done;
    } else {
      var key := items[0];
      StepReports(key, prefix, keys, done, store);
      var next := PathStep(key, prefix, keys);
      LoopReports(items[1..], prefix, next.value, done + {key}, store);
      assert items == [key] + items[1..];
      assert done + {key} + (set p | p in items[1..]) == done + (set p | p in items);
    }
  }

  lemma ChildrenOfMore(done: set<Path>, key: Path, prefix: Path)
    ensures Children(done + {key}, prefix) ==
      if Under(key, prefix) && (key != prefix ==> |key| > |prefix|) then Children(done, prefix) + {Child(key, prefix)}
      else Children(done, prefix)
  {
  }

  /** A key that a reported child covers belongs to that child. */
  lemma CoveredBelongs(key: Path, prefix: Path, keys: seq<Path>, done: set<Path>, store: set<Path>)
    requires Stable(store, prefix) && Reported(keys, done, store, prefix) && key in store
    requires Under(key, prefix) && CoveredPath(key, keys)
    ensures Child(key, prefix) in keys
  {
    var i :| 0 <= i < |keys| && Under(key, keys[i]);
    assert keys[i] in keys;
    var b :| b in done && Under(b, prefix) && (b != prefix ==> |b| > |prefix|) && Child(b, prefix) == keys[i];
    assert b in store;
  }

  lemma UnderOwnChild(key: Path, prefix: Path)
    requires Under(key, prefix) && prefix != [] && (key != prefix ==> |key| > |prefix|)
    ensures Under(key, Child(key, prefix))
  {
    var c := Child(key, prefix);
    assert c[..|c| - 1] == key[..|c| - 1];
  }

  lemma StepReports(key: Path, prefix: Path, keys: seq<Path>, done: set<Path>, store: set<Path>)
    requires Stable(store, prefix) && Reported(keys, done, store, prefix) && key in store && prefix != []
    ensures var s := PathStep(key, prefix, keys);
      s.Some? && Reported(s.value, done + {key}, store, prefix)
  {
    ChildrenOfMore(done, key, prefix);
    if Under(key, prefix) {
      if CoveredPath(key, keys) {
        CoveredBelongs(key, prefix, keys, done, store);
      } else {
        UnderOwnChild(key, prefix);
        assert Child(key, prefix) !in keys;
      }
    }
  }

  /** A stable listing is exact in every order. */
  lemma StableListsExactly(order: seq<Path>, store: set<Path>, prefix: Path)
    requires Enumerates(order, store) && AllSegments(order) && Segments(prefix) && prefix != []
    requires Stable(store, prefix)
    ensures ListsExactly(order, store, prefix)
  {
    assert Reported([], {}, store, prefix);
    LoopReports(order, prefix, [], {}, store);
    assert {} + (set p | p in order) == store;
    LoopRendered(order, prefix, []);
    assert RenderAll([]) == [];
  }

  function MoveToFront<T>(s: seq<T>, i: nat): seq<T>
    requires i < |s|
  {
    [s[i]] + s[..i] + s[i + 1..]
  }

  lemma MovedAt<T>(s: seq<T>, i: nat, j: nat)
    requires i < |s| && j < |s|
    ensures MoveToFront(s, i)[j] == s[if j == 0 then i else if j <= i then j - 1 else j]
  {
  }

  lemma MovedDistinct<T>(s: seq<T>, i: nat)
    requires Distinct(s) && i < |s|
    ensures Distinct(MoveToFront(s, i))
  {
    var m := MoveToFront(s, i);
    forall j, k | 0 <= j < k < |m| ensures m[j] != m[k] {
      MovedAt(s, i, j);
      MovedAt(s, i, k);
    }
  }

  lemma MovedMembers<T>(s: seq<T>, i: nat, x: T)
    requires i < |s|
    ensures x in MoveToFront(s, i) <==> x in s
  {
    assert s == s[..i] + [s[i]] + s[i + 1..];
  }

  lemma MovedEnumerates(order: seq<Path>, i: nat, store: set<Path>)
    requires Enumerates(order, store) && i < |order|
    ensures Enumerates(MoveToFront(order, i), store)
    ensures AllSegments(order) ==> AllSegments(MoveToFront(order, i))
  {
    MovedDistinct(order, i);
    forall p: Path ensures p in MoveToFront(order, i) <==> p in order {
      MovedMembers(order, i, p);
    }
  }

  /** Some order of the same paths starts with `b`. */
  lemma BringFirst(order: seq<Path>, store: set<Path>, b: Path) returns (r: seq<Path>)
    requires Enumerates(order, store) && AllSegments(order) && b in store
    ensures Enumerates(r, store) && AllSegments(r) && r != [] && r[0] == b
  {
    var i :| 0 <= i < |order| && order[i] == b;
    MovedEnumerates(order, i, store);
    r := MoveToFront(order, i);
  }

  /** Once `d` is listed, a child all of whose keys start with `d` is never reported. */
  lemma {:induction false} HiddenChild(items: seq<Path>, prefix: Path, keys: seq<Path>, d: Path, c: Path)
    requires |c| == |prefix| + 1 && d in keys && c !in keys && c != d
    requires 0 < |d| <= |c| && Under(c, d)
    ensures var r := PathLoop(items, prefix, keys); r.Some? ==> c !in r.value
    decreases |items|
  {
    if items != [] {
      var key := items[0];
      var next := PathStep(key, prefix, keys);
      if next.Some? {
        if |key| > |prefix| && key[..|prefix| + 1] == c {
          assert key[..|d| - 1] == c[..|d| - 1];
          var i :| 0 <= i < |keys| && keys[i] == d;
          assert Under(key, keys[i]);
        }
        HiddenChild(items[1..], prefix, next.value, d, c);
      }
    }
  }

  /** A key too short for the prefix it starts with panics the listing when it comes first. */
  lemma ShortKeyPanics(order: seq<Path>, store: set<Path>, prefix: Path, b: Path) returns (bad: seq<Path>)
    requires Enumerates(order, store) && AllSegments(order) && Segments(prefix) && prefix != []
    requires b in store && Under(b, prefix) && b != prefix && |b| <= |prefix|
    ensures Enumerates(bad, store) && KeysLoop(RenderAll(bad), Render(prefix), []) == None
  {
    bad := BringFirst(order, store, b);
    LoopRendered(bad, prefix, []);
    assert RenderAll([]) == [];
    assert bad[0] == b && PathStep(b, prefix, []) == None;
  }

  /** A child whose name extends a sibling's is missed when the sibling comes first. */
  lemma LongerSiblingMissed(order: seq<Path>, store: set<Path>, prefix: Path, b: Path, c: Path) returns (bad: seq<Path>)
    requires Enumerates(order, store) && AllSegments(order) && Segments(prefix) && prefix != []
    requires b in store && Under(b, prefix) && (b != prefix ==> |b| > |prefix|)
    requires c in store && Under(c, prefix) && (c != prefix ==> |c| > |prefix|)
    requires Under(c, Child(b, prefix)) && Child(b, prefix) != Child(c, prefix)
    ensures Enumerates(bad, store) && !ListsExactly(bad, store, prefix)
  {
    bad := BringFirst(order, store, b);
    FirstHides(bad, prefix, b, c);
    assert c in order && Segments(Child(c, prefix));
    NotListed(bad, store, prefix, Child(c, prefix));
  }

  lemma FirstHides(order: seq<Path>, prefix: Path, b: Path, c: Path)
    requires order != [] && order[0] == b && prefix != []
    requires Under(b, prefix) && (b != prefix ==> |b| > |prefix|)
    requires Under(c, prefix) && (c != prefix ==> |c| > |prefix|)
    requires Under(c, Child(b, prefix)) && Child(b, prefix) != Child(c, prefix)
    ensures var r := PathLoop(order, prefix, []); r.Some? ==> Child(c, prefix) !in r.value
  {
    var d, e := Child(b, prefix), Child(c, prefix);
    var none: seq<Path> := [];
    assert none + [d] == [d];
    assert PathStep(b, prefix, none) == Some([d]);
    assert c != prefix && |d| <= |e| && e == c[..|e|];
    assert e[..|d| - 1] == c[..|d| - 1];
    HiddenChild(order[1..], prefix, [d], d, e);
  }

  /** Conversely, a listing that is not stable is wrong in some order. */
  lemma UnstableListingFails(order: seq<Path>, store: set<Path>, prefix: Path) returns (bad: seq<Path>)
    requires Enumerates(order, store) && AllSegments(order) && Segments(prefix) && prefix != []
    requires !Stable(store, prefix)
    ensures Enumerates(bad, store) && !ListsExactly(bad, store, prefix)
  {
    if b :| b in store && Under(b, prefix) && b != prefix && |b| <= |prefix| {
      bad := ShortKeyPanics(order, store, prefix, b);
    } else {
      var b, c :| b in store && c in store && Under(b, prefix) && Under(c, prefix)
        && Under(c, Child(b, prefix)) && Child(b, prefix) != Child(c, prefix);
      bad := LongerSiblingMissed(order, store, prefix, b, c);
    }
  }

  lemma NotListed(order: seq<Path>, store: set<Path>, prefix: Path, e: Path)
    requires AllSegments(order) && Segments(prefix) && prefix != []
    requires e in Children(store, prefix) && Segments(e)
    requires var r := PathLoop(order, prefix, []); r.Some? ==> e !in r.value
    ensures !ListsExactly(order, store, prefix)
  {
    LoopRendered(order, prefix, []);
    assert RenderAll([]) == [];
    if ListsExactly(order, store, prefix) {
      var r: seq<Path> :| KeysLoop(RenderAll(order), Render(prefix), []) == Some(RenderAll(r))
        && AllSegments(r) && Distinct(r) && (forall c :: c in r <==> c in Children(store, prefix));
      var s := PathLoop(order, prefix, []).value;
      var i :| 0 <= i < |r| && r[i] == e;
      assert RenderAll(s)[i] == Render(r[i]);
      RenderInjective(s[i], r[i]);
    }
  }

  /** Exact in every order if and only if stable. */
  lemma ListingExactIffStable(order: seq<Path>, store: set<Path>, prefix: Path)
    requires Enumerates(order, store) && AllSegments(order) && Segments(prefix) && prefix != []
    ensures Stable(store, prefix) <==>
      forall o :: Enumerates(o, store) ==> ListsExactly(o, store, prefix)
  {
    if Stable(store, prefix) {
      forall o | Enumerates(o, store) ensures ListsExactly(o, store, prefix) {
        forall i | 0 <= i < |o| ensures Segments(o[i]) && o[i] != [] {
          assert o[i] in order;
        }
        StableListsExactly(o, store, prefix);
      }
    } else {
      var bad := UnstableListingFails(order, store, prefix);
    }
  }
}
