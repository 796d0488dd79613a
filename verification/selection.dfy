/**
 * The checkbox selections of the collection page (categories and
 * subcategories): ticking or unticking a box toggles its value in a list.
 */
module Selection {
  import opened Seqs

  /** The predicate of the filter that drops `v`. */
  function Without(v: string): string -> bool
  {
    x => x != v
  }

  /**
   * The state updater shared by toggleCategory and toggleSubCategory: a
   * value already in the list is removed (every copy of it), any other value
   * is appended at the end.
   */
  function Toggle(prev: seq<string>, v: string): (r: seq<string>)
    ensures v in r <==> v !in prev
    ensures forall x :: x != v ==> (x in r <==> x in prev)
    ensures v !in prev ==> |r| == |prev| + 1 && r[..|prev|] == prev && r[|prev|] == v
  {
    if v in prev then Filter(prev, Without(v)) else prev + [v]
  }

  /**
   * Unticking a value keeps the other values in their relative order, with
   * their multiplicities, and removes every copy of the value.
   */
  lemma ToggleRemoves(prev: seq<string>, v: string)
    requires v in prev
    ensures Subseq(Toggle(prev, v), prev)
    ensures forall x :: multiset(Toggle(prev, v))[x] == if x == v then 0 else multiset(prev)[x]
  {
    FilterSpec(prev, Without(v));
  }

  /** A toggle keeps a duplicate-free list duplicate-free. */
  lemma ToggleNoDup(prev: seq<string>, v: string)
    requires NoDup(prev)
    ensures NoDup(Toggle(prev, v))
  {
    if v in prev {
      FilterNoDup(prev, Without(v));
    } else {
      var r := Toggle(prev, v);
      forall i, j | 0 <= i < j < |r| ensures r[i] != r[j] {
        if j == |prev| {
          assert r[i] == prev[i];
        } else {
          assert r[i] == prev[i] && r[j] == prev[j];
        }
      }
    }
  }

  /**
   * Toggling a value twice restores the selected set; when the value was not
   * selected, it restores the list itself.
   */
  lemma ToggleTwice(prev: seq<string>, v: string)
    ensures forall x :: x in Toggle(Toggle(prev, v), v) <==> x in prev
    ensures v !in prev ==> Toggle(Toggle(prev, v), v) == prev
  {
    if v !in prev {
      FilterConcat(prev, [v], Without(v));
      FilterAll(prev, Without(v));
    }
  }

  /** The list reached from `prev` by toggling the values of `vs` in turn. */
  function ToggleAll(prev: seq<string>, vs: seq<string>): seq<string>
    decreases |vs|
  {
    if vs == [] then prev else ToggleAll(Toggle(prev, vs[0]), vs[1..])
  }

  /** A list built only by toggles, starting from none, has no duplicates. */
  lemma {:induction false} ToggleAllNoDup(prev: seq<string>, vs: seq<string>)
    requires NoDup(prev)
    ensures NoDup(ToggleAll(prev, vs))
    decreases |vs|
  {
    if vs != [] {
      ToggleNoDup(prev, vs[0]);
      ToggleAllNoDup(Toggle(prev, vs[0]), vs[1..]);
    }
  }

  /** The selection lists start empty, so every reachable selection is duplicate-free. */
  lemma TogglesFromNothingNoDup(vs: seq<string>)
    ensures NoDup(ToggleAll([], vs))
  {
    ToggleAllNoDup([], vs);
  }
}
