/** The moves tab of the detail view: the moves of the selected generation,
    one per (generation, move, learn method, level), grouped by learn
    method; and the level-up list sorted by level in place, keeping the
    order of moves learnt at the same level. */
module DetailMoves {
  import opened Wrappers
  import opened Text
  import opened Collections
  import opened DetailView

  // ---------------------------------------------------------------------
  // The per-generation filter

  /** The generation heading a move is filed under: "Other" without a
      version group, the table's generation for a known group, and for an
      unknown one the group's name with '-' turned into spaces and
      capitalised. */
  function MoveGenName(v: string): string {
    if v == "" || v == "unknown" then "Other"
    else if v in VersionGroups then VersionGroups[v]
    else Capitalize(ReplaceAll(v, "-", " "))
  }

  /** The de-duplication key of the filter: the version group itself is
      not part of it, only the generation it maps to. */
  function FilterKey(m: MoveEntry): (string, string, string, int) {
    (MoveGenName(m.versionGroup), m.name, m.learnMethod, m.level)
  }

  /** A move filed under the selected generation. */
  predicate InGeneration(m: MoveEntry, selected: string) {
    MoveGenName(m.versionGroup) == selected
  }

  /** The moves kept by the filter loop, from a set `seen` of keys already
      kept: a move of another generation is skipped, and so is one whose
      key was seen. */
  function KeptFrom(moves: seq<MoveEntry>, selected: string, seen: set<(string, string, string, int)>): seq<MoveEntry>
    decreases |moves|
  {
    if moves == [] then []
    else
      var m := moves[0];
      if !InGeneration(m, selected) || FilterKey(m) in seen then KeptFrom(moves[1..], selected, seen)
      else [m] + KeptFrom(moves[1..], selected, seen + {FilterKey(m)})
  }

  /** The moves the filter keeps, starting with nothing seen. */
  function Kept(moves: seq<MoveEntry>, selected: string): seq<MoveEntry> {
    KeptFrom(moves, selected, {})
  }

  /** The moves of the selected generation, all of them, in order. */
  function OfGeneration(moves: seq<MoveEntry>, selected: string): (r: seq<MoveEntry>)
    ensures forall m :: m in r <==> m in moves && InGeneration(m, selected)
    decreases |moves|
  {
    if moves == [] then []
    else
      var rest := OfGeneration(moves[1..], selected);
      assert forall m :: m in moves <==> m == moves[0] || m in moves[1..];
      if InGeneration(moves[0], selected) then [moves[0]] + rest else rest
  }

  /** The filter is first-occurrence de-duplication under `FilterKey` of the
      moves of the selected generation. */
  lemma {:induction false} KeptIsDedup(moves: seq<MoveEntry>, selected: string, seen: set<(string, string, string, int)>)
    ensures KeptFrom(moves, selected, seen) == DedupFrom(OfGeneration(moves, selected), FilterKey, seen)
    decreases |moves|
  {
    if moves != [] {
      var m := moves[0];
      var g := OfGeneration(moves, selected);
      if InGeneration(m, selected) {
        assert g[0] == m && g[1..] == OfGeneration(moves[1..], selected);
        if FilterKey(m) in seen {
          KeptIsDedup(moves[1..], selected, seen);
        } else {
          KeptIsDedup(moves[1..], selected, seen + {FilterKey(m)});
        }
      } else {
        KeptIsDedup(moves[1..], selected, seen);
      }
    }
  }

  /** What the filter promises: every kept move is of the selected
      generation and comes from the list, in the list's order; no two kept
      moves share a key; every key of the generation's moves is kept; and
      each kept move is the first of the generation's moves with its key. */
  lemma KeptProperties(moves: seq<MoveEntry>, selected: string)
    ensures forall m :: m in Kept(moves, selected) ==> m in moves && InGeneration(m, selected)
    ensures IsSubseq(Kept(moves, selected), OfGeneration(moves, selected))
    ensures forall i, j :: 0 <= i < j < |Kept(moves, selected)| ==>
      FilterKey(Kept(moves, selected)[i]) != FilterKey(Kept(moves, selected)[j])
    ensures KeySet(Kept(moves, selected), FilterKey) == KeySet(OfGeneration(moves, selected), FilterKey)
    ensures forall k :: 0 <= k < |Kept(moves, selected)| ==>
      KeptFirst(OfGeneration(moves, selected), FilterKey, Kept(moves, selected)[k])
  {
    var g := OfGeneration(moves, selected);
    KeptIsDedup(moves, selected, {});
    DedupSubseq(g, FilterKey, {});
    SubseqMembers(Kept(moves, selected), g);
    DedupDistinct(g, FilterKey, {});
    DedupKeys(g, FilterKey, {});
    DedupKeepsFirst(g, FilterKey, {});
  }

  /** Two moves that differ only in their version group, both of the
      selected generation, are shown once: the version group is not part of
      the key. */
  lemma VersionGroupDropped(a: MoveEntry, b: MoveEntry, selected: string)
    requires InGeneration(a, selected) && InGeneration(b, selected)
    requires a.name == b.name && a.learnMethod == b.learnMethod && a.level == b.level
    ensures Kept([a, b], selected) == [a]
  {
    var seen := {FilterKey(a)};
    assert [a, b][0] == a && [a, b][1..] == [b];
    assert [b][0] == b && [b][1..] == [];
    assert FilterKey(b) in seen;
    assert KeptFrom([b], selected, seen) == KeptFrom([], selected, seen) == [];
    assert {} + {FilterKey(a)} == seen;
    assert Kept([a, b], selected) == [a] + KeptFrom([b], selected, seen);
  }

  /** The moves of `s` learnt by `method`, in order. */
  function OfMethod(s: seq<MoveEntry>, learnMethod: string): (r: seq<MoveEntry>)
    ensures forall m :: m in r ==> m in s && m.learnMethod == learnMethod
  {
    if s == [] then []
    else
      var r := OfMethod(s[..|s| - 1], learnMethod) + (if s[|s| - 1].learnMethod == learnMethod then [s[|s| - 1]] else []);
      assert forall m :: m in s[..|s| - 1] ==> m in s;
      r
  }

  /** The list of a method in `filtered_gen_moves[gen]`, or `[]` for a
      method without moves (`.get(method_id, [])`). */
  function GroupOf(groups: map<string, seq<MoveEntry>>, learnMethod: string): seq<MoveEntry> {
    if learnMethod in groups then groups[learnMethod] else []
  }

  /** One step of `KeptFrom` at position `i`. */
  lemma KeptFromStep(moves: seq<MoveEntry>, i: int, selected: string, seen: set<(string, string, string, int)>)
    requires 0 <= i < |moves|
    ensures !InGeneration(moves[i], selected) || FilterKey(moves[i]) in seen ==>
      KeptFrom(moves[i..], selected, seen) == KeptFrom(moves[i + 1..], selected, seen)
    ensures InGeneration(moves[i], selected) && FilterKey(moves[i]) !in seen ==>
      KeptFrom(moves[i..], selected, seen) == [moves[i]] + KeptFrom(moves[i + 1..], selected, seen + {FilterKey(moves[i])})
  {
    assert moves[i..][0] == moves[i] && moves[i..][1..] == moves[i + 1..];
  }

  /** Appending a move extends its own method's group only. */
  lemma OfMethodSnoc(s: seq<MoveEntry>, m: MoveEntry)
    ensures forall meth :: OfMethod(s + [m], meth) == OfMethod(s, meth) + (if m.learnMethod == meth then [m] else [])
  {
    assert (s + [m])[..|s|] == s;
  }

  /** The filter loop: `filtered_gen_moves[selected]` grouped by learn
      method. Each group is the kept moves of that method, in order, and a
      method appears only once a move of it is kept. */
  method FilterMoves(moves: seq<MoveEntry>, selected: string) returns (groups: map<string, seq<MoveEntry>>)
    ensures forall meth :: GroupOf(groups, meth) == OfMethod(Kept(moves, selected), meth)
    ensures forall meth :: meth in groups ==> groups[meth] != []
  {
    groups := map[];
    var seen: set<(string, string, string, int)> := {};
    ghost var kept: seq<MoveEntry> := [];
    var i := 0;
    assert moves[0..] == moves;
    while i < |moves|
      invariant 0 <= i <= |moves|
      invariant kept + KeptFrom(moves[i..], selected, seen) == Kept(moves, selected)
      invariant forall meth :: GroupOf(groups, meth) == OfMethod(kept, meth)
      invariant forall meth :: meth in groups ==> groups[meth] != []
    {
      var m := moves[i];
      KeptFromStep(moves, i, selected, seen);
      var gen := MoveGenName(m.versionGroup);
      var key := (gen, m.name, m.learnMethod, m.level);
      assert key == FilterKey(m);
      if gen == selected && key !in seen {
        ghost var prior := kept;
        ghost var rest := KeptFrom(moves[i + 1..], selected, seen + {key});
        groups := groups[m.learnMethod := GroupOf(groups, m.learnMethod) + [m]];
        seen := seen + {key};
        kept := kept + [m];
        AppendAssoc(prior, [m], rest);
        OfMethodSnoc(prior, m);
      }
      i := i + 1;
    }
    assert moves[i..] == [];
    assert kept == Kept(moves, selected);
  }

  // ---------------------------------------------------------------------
  // Sorting the level-up list

  /** Ascending by level. */
  predicate SortedByLevel(s: seq<MoveEntry>) {
    forall i, j :: 0 <= i < j < |s| ==> s[i].level <= s[j].level
  }

  /** The moves of `s` learnt at level `l`, in order. */
  function AtLevel(s: seq<MoveEntry>, l: int): seq<MoveEntry> {
    if s == [] then []
    else AtLevel(s[..|s| - 1], l) + (if s[|s| - 1].level == l then [s[|s| - 1]] else [])
  }

  /** `x` placed into a sorted list after every move of level at most its own. */
  function Insert(x: MoveEntry, s: seq<MoveEntry>): seq<MoveEntry>
    decreases |s|
  {
    if s == [] then [x]
    else if s[|s| - 1].level <= x.level then s + [x]
    else Insert(x, s[..|s| - 1]) + [s[|s| - 1]]
  }

  /** `list.sort(key=level_learned_at)`: Python's sort is stable, and so is
      insertion from the left. */
  function SortLevels(s: seq<MoveEntry>): seq<MoveEntry>
    decreases |s|
  {
    if s == [] then [] else Insert(s[|s| - 1], SortLevels(s[..|s| - 1]))
  }

  lemma {:induction false} InsertMultiset(x: MoveEntry, s: seq<MoveEntry>)
    ensures multiset(Insert(x, s)) == multiset(s) + multiset{x}
    decreases |s|
  {
    if s != [] {
      var init := s[..|s| - 1];
      assert s == init + [s[|s| - 1]];
      if s[|s| - 1].level > x.level {
        InsertMultiset(x, init);
      }
    }
  }

  /** Every move of an insertion is `x` or a move of the list. */
  lemma InsertMembers(x: MoveEntry, s: seq<MoveEntry>)
    ensures forall y :: y in Insert(x, s) ==> y == x || y in s
  {
    InsertMultiset(x, s);
    forall y | y in Insert(x, s) ensures y == x || y in s {
      assert y in multiset(Insert(x, s));
    }
  }

  lemma {:induction false} InsertSorted(x: MoveEntry, s: seq<MoveEntry>)
    requires SortedByLevel(s)
    ensures SortedByLevel(Insert(x, s))
    decreases |s|
  {
    if s != [] {
      var init := s[..|s| - 1];
      var last := s[|s| - 1];
      if last.level <= x.level {
        var r := s + [x];
        assert forall k :: 0 <= k < |s| ==> r[k] == s[k];
      } else {
        InsertSorted(x, init);
        var r := Insert(x, init);
        InsertMembers(x, init);
        forall k | 0 <= k < |r| ensures r[k].level <= last.level {
          assert r[k] in r;
          if r[k] != x {
            var w :| 0 <= w < |init| && init[w] == r[k];
            assert s[w] == r[k];
          }
        }
        var t := r + [last];
        assert forall k :: 0 <= k < |r| ==> t[k] == r[k];
      }
    }
  }

  /** The sorted list is sorted and a permutation of the list. */
  lemma {:induction false} SortLevelsSorted(s: seq<MoveEntry>)
    ensures SortedByLevel(SortLevels(s))
    ensures multiset(SortLevels(s)) == multiset(s)
    decreases |s|
  {
    if s != [] {
      SortLevelsSorted(s[..|s| - 1]);
      InsertSorted(s[|s| - 1], SortLevels(s[..|s| - 1]));
      InsertMultiset(s[|s| - 1], SortLevels(s[..|s| - 1]));
      assert s == s[..|s| - 1] + [s[|s| - 1]];
    }
  }

  /** Inserting adds `x` at the end of its own level and moves nothing else
      within a level. */
  lemma {:induction false} InsertStable(x: MoveEntry, s: seq<MoveEntry>, l: int)
    ensures AtLevel(Insert(x, s), l) == AtLevel(s, l) + (if x.level == l then [x] else [])
    decreases |s|
  {
    if s == [] {
      AtLevelSnoc([], x, l);
      assert [] + [x] == [x];
    } else {
      var init := s[..|s| - 1];
      var last := s[|s| - 1];
      assert s == init + [last];
      if last.level <= x.level {
        AtLevelSnoc(s, x, l);
      } else {
        InsertStable(x, init, l);
        var r := Insert(x, init);
        AtLevelSnoc(r, last, l);
        AtLevelSnoc(init, last, l);
        var lx := if x.level == l then [x] else [];
        var ll := if last.level == l then [last] else [];
        assert lx == [] || ll == [];
        assert AtLevel(init, l) + lx + ll == AtLevel(init, l) + ll + lx;
      }
    }
  }

  /** A move appended at the end comes last among the moves of its level. */
  lemma AtLevelSnoc(s: seq<MoveEntry>, y: MoveEntry, l: int)
    ensures AtLevel(s + [y], l) == AtLevel(s, l) + (if y.level == l then [y] else [])
  {
    assert (s + [y])[..|s|] == s;
  }

  /** Stability: the moves of each level keep their order. */
  lemma {:induction false} SortLevelsStable(s: seq<MoveEntry>, l: int)
    ensures AtLevel(SortLevels(s), l) == AtLevel(s, l)
    decreases |s|
  {
    if s != [] {
      SortLevelsStable(s[..|s| - 1], l);
      InsertStable(s[|s| - 1], SortLevels(s[..|s| - 1]), l);
    }
  }

  /** The insertion point the shifting loop stops at is where `Insert` puts `x`. */
  lemma {:induction false} InsertAt(x: MoveEntry, s: seq<MoveEntry>, j: int)
    requires 0 <= j <= |s|
    requires forall k :: j <= k < |s| ==> s[k].level > x.level
    requires j == 0 || s[j - 1].level <= x.level
    ensures Insert(x, s) == s[..j] + [x] + s[j..]
    decreases |s|
  {
    if s != [] {
      var init := s[..|s| - 1];
      if j == |s| {
        assert s[..j] == s && s[j..] == [];
      } else {
        InsertAt(x, init, j);
        assert init[..j] == s[..j] && init[j..] + [s[|s| - 1]] == s[j..];
      }
    }
  }

  /** A sequence that has the elements of `s` before `j`, then `x`, then
      the rest of `s` shifted by one, is `s` with `x` put in at `j`. */
  lemma InsertedAt<T>(s: seq<T>, x: T, j: int, b: seq<T>)
    requires 0 <= j <= |s| && |b| == |s| + 1
    requires forall k :: 0 <= k < j ==> b[k] == s[k]
    requires b[j] == x
    requires forall k :: j < k < |b| ==> b[k] == s[k - 1]
    ensures b == s[..j] + [x] + s[j..]
  {
    var r := s[..j] + [x] + s[j..];
    forall k | 0 <= k < |b| ensures b[k] == r[k] {
      if k < j {
        assert r[k] == s[k];
      } else if k > j {
        assert r[k] == s[j..][k - j - 1];
      }
    }
  }

  /** One pass of the insertion sort: `a[i]` moves left past the moves of
      a higher level in the sorted prefix `a[..i]`. */
  method InsertLast(a: array<MoveEntry>, i: int)
    requires 0 <= i < a.Length
    modifies a
    ensures a[..i + 1] == Insert(old(a[i]), old(a[..i]))
    ensures a[i + 1..] == old(a[i + 1..])
  {
    ghost var orig := a[..];
    ghost var sorted := a[..i];
    var x := a[i];
    var j := i;
    while j > 0 && a[j - 1].level > x.level
      invariant 0 <= j <= i
      invariant forall k :: 0 <= k < j ==> a[k] == sorted[k]
      invariant forall k :: j < k <= i ==> a[k] == sorted[k - 1]
      invariant forall k :: j <= k < i ==> sorted[k].level > x.level
      invariant forall k :: i < k < a.Length ==> a[k] == orig[k]
    {
      a[j] := a[j - 1];
      j := j - 1;
    }
    a[j] := x;
    assert j == 0 || sorted[j - 1].level <= x.level;
    InsertAt(x, sorted, j);
    InsertedAt(sorted, x, j, a[..i + 1]);
    assert a[i + 1..] == orig[i + 1..];
  }

  /** `moves_list.sort(key=lambda x: x.level_learned_at)` on the level-up
      list, in place: an insertion sort. */
  method SortByLevel(a: array<MoveEntry>)
    modifies a
    ensures a[..] == SortLevels(old(a[..]))
  {
    ghost var orig := a[..];
    var i := 0;
    while i < a.Length
      invariant 0 <= i <= a.Length
      invariant a[..i] == SortLevels(orig[..i])
      invariant a[i..] == orig[i..]
    {
      InsertLast(a, i);
      assert orig[..i + 1][..i] == orig[..i] && orig[i] == orig[..i + 1][i];
      i := i + 1;
    }
    assert a[..] == a[..a.Length] && orig[..a.Length] == orig;
  }
}
