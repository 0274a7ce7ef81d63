/** How a legend or a list of probabilities is folded (internal/codec/commit.go): spellings of one key meet in one
    entry, and where the first refused key or value stands. */
module Folds {
  import opened Basics

  /** One member of the object as the traversal met it. */
  datatype Pair<T> = Pair(key: string, val: T, bad: bool)

  // ----- level keys -----

  const MAX_LEVEL: nat := 0xFFFF_FFFF

  predicate IsDigit(c: char) {
    '0' <= c <= '9'
  }

  function Digit(c: char): nat
    requires IsDigit(c)
  {
    c as int - '0' as int
  }

  predicate AllDigits(s: string) {
    forall i :: 0 <= i < |s| ==> IsDigit(s[i])
  }

  function Decimal(s: string): nat
    requires AllDigits(s)
  {
    if s == "" then 0 else 10 * Decimal(s[..|s| - 1]) + Digit(s[|s| - 1])
  }

  function Unsigned(key: string): string {
    if key != "" && key[0] == '+' then key[1..] else key
  }

  /** The level a key spells: [+]?[0-9]+ with a value of at most 2^32 - 1. */
  function LevelOf(key: string): Option<nat> {
    var s := Unsigned(key);
    if s != "" && AllDigits(s) && Decimal(s) <= MAX_LEVEL then Some(Decimal(s)) else None
  }

  lemma {:induction false} DecimalGrows(s: string, i: nat)
    requires AllDigits(s) && i <= |s|
    ensures Decimal(s[..i]) <= Decimal(s)
    decreases |s| - i
  {
    if i < |s| {
      assert s[..i + 1][..i] == s[..i];
      DecimalGrows(s, i + 1);
    } else {
      assert s[..i] == s;
    }
  }

  /** parseLevel: the value is refused as soon as a prefix passes 2^32 - 1. */
  method ParseLevel(key: string) returns (level: Option<nat>)
    ensures level == LevelOf(key)
  {
    var s := Unsigned(key);
    if s == "" {
      return None;
    }
    var n := 0;
    var i := 0;
    while i < |s|
      invariant 0 <= i <= |s|
      invariant AllDigits(s[..i]) && n == Decimal(s[..i]) && n <= MAX_LEVEL
    {
      var c := s[i];
      if c < '0' || c > '9' {
        return None;
      }
      assert s[..i + 1][..i] == s[..i];
      n := n * 10 + Digit(c);
      if n > MAX_LEVEL {
        if AllDigits(s) {
          DecimalGrows(s, i + 1);
        }
        return None;
      }
      i := i + 1;
    }
    assert s[..i] == s;
    return Some(n);
  }

  // ----- the rule -----

  /** Position i is its key's first. */
  predicate FirstAt<T>(pairs: seq<Pair<T>>, i: nat)
    requires i < |pairs|
  {
    forall j :: 0 <= j < i ==> pairs[j].key != pairs[i].key
  }

  /** The last position of key, -1 when there is none. */
  function LastIndex<T>(pairs: seq<Pair<T>>, key: string): (r: int)
    ensures -1 <= r < |pairs|
    ensures r >= 0 ==> pairs[r].key == key
    ensures forall k :: r < k < |pairs| ==> pairs[k].key != key
  {
    if pairs == [] then -1
    else if pairs[|pairs| - 1].key == key then |pairs| - 1
    else LastIndex(pairs[..|pairs| - 1], key)
  }

  /**
    The spelling first met at i fails: it is no level, or its last value is
    bad. This is the Python SDK's rule: its parser keeps each spelling once,
    at its first position with its last value, and validates them in that
    order.
  */
  predicate FailsAt<K, T>(pairs: seq<Pair<T>>, parse: string -> Option<K>, i: nat)
    requires i < |pairs|
  {
    FirstAt(pairs, i) &&
    (parse(pairs[i].key).None? || pairs[LastIndex(pairs, pairs[i].key)].bad)
  }

  /** The position of the first failing spelling, from position i on. */
  function FirstFailing<K, T>(pairs: seq<Pair<T>>, parse: string -> Option<K>, i: nat := 0): (r: Option<nat>)
    requires i <= |pairs|
    ensures r.Some? ==> i <= r.value < |pairs| && FailsAt(pairs, parse, r.value)
    ensures forall j :: i <= j < (if r.Some? then r.value else |pairs|) ==> !FailsAt(pairs, parse, j)
    decreases |pairs| - i
  {
    if i == |pairs| then None
    else if FailsAt(pairs, parse, i) then Some(i)
    else FirstFailing(pairs, parse, i + 1)
  }

  /** The first failing spelling is the only position that fails with none before it. */
  lemma {:induction false} FirstFailingIs<K, T>(pairs: seq<Pair<T>>, parse: string -> Option<K>, r: Option<nat>, i: nat := 0)
    requires i <= |pairs|
    requires r.Some? ==> i <= r.value < |pairs| && FailsAt(pairs, parse, r.value)
    requires forall j :: i <= j < (if r.Some? then r.value else |pairs|) ==> !FailsAt(pairs, parse, j)
    ensures FirstFailing(pairs, parse, i) == r
    decreases |pairs| - i
  {
    if i < |pairs| && r != Some(i) {
      FirstFailingIs(pairs, parse, r, i + 1);
    }
  }

  /** The index of level k in entries, -1 when it is not there. */
  function IndexOf<K(==), T>(entries: seq<(K, T)>, k: K): (r: int)
    ensures -1 <= r < |entries|
    ensures r >= 0 ==> entries[r].0 == k
    ensures r < 0 ==> forall j :: 0 <= j < |entries| ==> entries[j].0 != k
  {
    if entries == [] then -1
    else if entries[|entries| - 1].0 == k then |entries| - 1
    else IndexOf(entries[..|entries| - 1], k)
  }

  /** An ordered dictionary's assignment: a key it has keeps its place and takes the value. */
  function PutEntry<K(==), T>(entries: seq<(K, T)>, k: K, val: T): seq<(K, T)> {
    var j := IndexOf(entries, k);
    if j >= 0 then entries[j := (k, val)] else entries + [(k, val)]
  }

  /** The folded entries: every readable key assigned in wire order. */
  function FoldEntries<K(==), T>(pairs: seq<Pair<T>>, parse: string -> Option<K>): seq<(K, T)> {
    if pairs == [] then []
    else
      var rest := FoldEntries(pairs[..|pairs| - 1], parse);
      var last := pairs[|pairs| - 1];
      match parse(last.key)
      case None => rest
      case Some(k) => PutEntry(rest, k, last.val)
  }

  // ----- what a fold holds -----

  /** The first and the last pair whose key reads as k, -1 when none does. */
  function FirstOf<K(==), T>(pairs: seq<Pair<T>>, parse: string -> Option<K>, k: K): (r: int)
    ensures -1 <= r < |pairs|
    ensures r >= 0 ==> parse(pairs[r].key) == Some(k)
    ensures forall i :: 0 <= i < (if r >= 0 then r else |pairs|) ==> parse(pairs[i].key) != Some(k)
  {
    if pairs == [] then -1
    else
      var r := FirstOf(pairs[..|pairs| - 1], parse, k);
      if r >= 0 then r else if parse(pairs[|pairs| - 1].key) == Some(k) then |pairs| - 1 else -1
  }

  function LastOf<K(==), T>(pairs: seq<Pair<T>>, parse: string -> Option<K>, k: K): (r: int)
    ensures -1 <= r < |pairs|
    ensures r >= 0 ==> parse(pairs[r].key) == Some(k)
    ensures forall i :: r < i < |pairs| ==> parse(pairs[i].key) != Some(k)
  {
    if pairs == [] then -1
    else if parse(pairs[|pairs| - 1].key) == Some(k) then |pairs| - 1
    else LastOf(pairs[..|pairs| - 1], parse, k)
  }

  /** One entry per level, in the order of the levels' first pairs, each with the value of its last pair. */
  ghost predicate OneEach<K, T>(pairs: seq<Pair<T>>, parse: string -> Option<K>, entries: seq<(K, T)>) {
    Ranked(pairs, parse, entries) && Complete(pairs, parse, entries)
  }

  ghost predicate Ranked<K, T>(pairs: seq<Pair<T>>, parse: string -> Option<K>, entries: seq<(K, T)>) {
    && (forall j :: 0 <= j < |entries| ==> ValueOfLast(pairs, parse, entries[j]))
    && (forall a, b :: 0 <= a < b < |entries| ==> FirstOf(pairs, parse, entries[a].0) < FirstOf(pairs, parse, entries[b].0))
  }

  ghost predicate Complete<K, T>(pairs: seq<Pair<T>>, parse: string -> Option<K>, entries: seq<(K, T)>) {
    forall i :: 0 <= i < |pairs| && parse(pairs[i].key).Some? ==> IndexOf(entries, parse(pairs[i].key).value) >= 0
  }

  ghost predicate ValueOfLast<K, T>(pairs: seq<Pair<T>>, parse: string -> Option<K>, entry: (K, T)) {
    var last := LastOf(pairs, parse, entry.0);
    last >= 0 && entry.1 == pairs[last].val
  }

  lemma FirstBeforeLast<K, T>(pairs: seq<Pair<T>>, parse: string -> Option<K>, k: K)
    ensures FirstOf(pairs, parse, k) >= 0 <==> LastOf(pairs, parse, k) >= 0
    ensures FirstOf(pairs, parse, k) <= LastOf(pairs, parse, k)
  {
  }

  /** A pair of another level changes neither. */
  lemma OtherPair<K, T>(pairs: seq<Pair<T>>, parse: string -> Option<K>, k: K)
    requires pairs != [] && parse(pairs[|pairs| - 1].key) != Some(k)
    ensures FirstOf(pairs, parse, k) == FirstOf(pairs[..|pairs| - 1], parse, k)
    ensures LastOf(pairs, parse, k) == LastOf(pairs[..|pairs| - 1], parse, k)
  {
  }

  lemma OtherEntry<K, T>(pairs: seq<Pair<T>>, parse: string -> Option<K>, entry: (K, T))
    requires pairs != [] && parse(pairs[|pairs| - 1].key) != Some(entry.0) && ValueOfLast(pairs[..|pairs| - 1], parse, entry)
    ensures ValueOfLast(pairs, parse, entry)
  {
    OtherPair(pairs, parse, entry.0);
  }

  /** Entries whose keys have different first pairs have different keys. */
  lemma KeysDiffer<K, T>(pairs: seq<Pair<T>>, parse: string -> Option<K>, es: seq<(K, T)>, a: nat, b: nat)
    requires Ranked(pairs, parse, es) && a < |es| && b < |es| && a != b
    ensures es[a].0 != es[b].0
  {
  }

  /** An unreadable key adds nothing. */
  lemma KeptEach<K, T>(pairs: seq<Pair<T>>, parse: string -> Option<K>, es: seq<(K, T)>)
    requires pairs != [] && parse(pairs[|pairs| - 1].key).None? && OneEach(pairs[..|pairs| - 1], parse, es)
    ensures OneEach(pairs, parse, es)
  {
    forall j | 0 <= j < |es|
      ensures ValueOfLast(pairs, parse, es[j]) && FirstOf(pairs, parse, es[j].0) == FirstOf(pairs[..|pairs| - 1], parse, es[j].0)
    {
      OtherEntry(pairs, parse, es[j]);
      OtherPair(pairs, parse, es[j].0);
    }
    forall i | 0 <= i < |pairs| && parse(pairs[i].key).Some?
      ensures IndexOf(es, parse(pairs[i].key).value) >= 0
    {
      assert pairs[..|pairs| - 1][i] == pairs[i];
    }
  }

  /** A level that has an entry gives it its value: its own last pair is the newest, the others' are where they were. */
  lemma HitOne<K, T>(pairs: seq<Pair<T>>, parse: string -> Option<K>, k: K, e: (K, T), f: (K, T))
    requires pairs != [] && parse(pairs[|pairs| - 1].key) == Some(k) && ValueOfLast(pairs[..|pairs| - 1], parse, e)
    requires f == if e.0 == k then (k, pairs[|pairs| - 1].val) else e
    ensures ValueOfLast(pairs, parse, f) && FirstOf(pairs, parse, f.0) == FirstOf(pairs[..|pairs| - 1], parse, e.0)
  {
    if e.0 == k {
      FirstBeforeLast(pairs[..|pairs| - 1], parse, k);
    } else {
      OtherEntry(pairs, parse, e);
      OtherPair(pairs, parse, e.0);
    }
  }

  lemma HitRanked<K, T>(pairs: seq<Pair<T>>, parse: string -> Option<K>, es: seq<(K, T)>, k: K, j: nat)
    requires pairs != [] && parse(pairs[|pairs| - 1].key) == Some(k) && Ranked(pairs[..|pairs| - 1], parse, es)
    requires j < |es| && es[j].0 == k
    ensures Ranked(pairs, parse, es[j := (k, pairs[|pairs| - 1].val)])
  {
    var n := |pairs| - 1;
    var fs := es[j := (k, pairs[n].val)];
    forall m | 0 <= m < |fs|
      ensures ValueOfLast(pairs, parse, fs[m]) && FirstOf(pairs, parse, fs[m].0) == FirstOf(pairs[..n], parse, es[m].0)
    {
      if m != j {
        KeysDiffer(pairs[..n], parse, es, m, j);
      }
      HitOne(pairs, parse, k, es[m], fs[m]);
    }
  }

  lemma HitComplete<K, T>(pairs: seq<Pair<T>>, parse: string -> Option<K>, es: seq<(K, T)>, fs: seq<(K, T)>, j: nat)
    requires pairs != [] && Complete(pairs[..|pairs| - 1], parse, es)
    requires |fs| == |es| && (forall m :: 0 <= m < |es| ==> fs[m].0 == es[m].0)
    requires j < |es| && parse(pairs[|pairs| - 1].key) == Some(es[j].0)
    ensures Complete(pairs, parse, fs)
  {
    forall i | 0 <= i < |pairs| && parse(pairs[i].key).Some?
      ensures IndexOf(fs, parse(pairs[i].key).value) >= 0
    {
      StillThere(pairs, parse, es, fs, j, i);
    }
  }

  lemma StillThere<K, T>(pairs: seq<Pair<T>>, parse: string -> Option<K>, es: seq<(K, T)>, fs: seq<(K, T)>, j: nat, i: nat)
    requires i < |pairs| && parse(pairs[i].key).Some? && Complete(pairs[..|pairs| - 1], parse, es)
    requires |fs| == |es| && (forall m :: 0 <= m < |es| ==> fs[m].0 == es[m].0)
    requires j < |es| && parse(pairs[|pairs| - 1].key) == Some(es[j].0)
    ensures IndexOf(fs, parse(pairs[i].key).value) >= 0
  {
    var l := parse(pairs[i].key).value;
    if i < |pairs| - 1 {
      assert pairs[..|pairs| - 1][i] == pairs[i];
      assert fs[IndexOf(es, l)].0 == l;
    } else {
      assert fs[j].0 == l;
    }
  }

  lemma Appended<K, T>(es: seq<(K, T)>, e: (K, T), k: K)
    requires IndexOf(es, k) >= 0 || e.0 == k
    ensures IndexOf(es + [e], k) >= 0
  {
    var fs := es + [e];
    assert fs[|es|] == e;
    assert IndexOf(es, k) >= 0 ==> fs[IndexOf(es, k)].0 == k;
  }

  /** A level without an entry was not met before. */
  lemma NewLevel<K, T>(pairs: seq<Pair<T>>, parse: string -> Option<K>, es: seq<(K, T)>, k: K)
    requires pairs != [] && parse(pairs[|pairs| - 1].key) == Some(k) && Complete(pairs[..|pairs| - 1], parse, es)
    requires IndexOf(es, k) < 0
    ensures FirstOf(pairs, parse, k) == LastOf(pairs, parse, k) == |pairs| - 1
  {
    assert FirstOf(pairs[..|pairs| - 1], parse, k) < 0;
  }

  lemma OldLevel<K, T>(pairs: seq<Pair<T>>, parse: string -> Option<K>, k: K, e: (K, T))
    requires pairs != [] && parse(pairs[|pairs| - 1].key) == Some(k) && e.0 != k && ValueOfLast(pairs[..|pairs| - 1], parse, e)
    ensures OldEntry(pairs, parse, e)
  {
    OtherEntry(pairs, parse, e);
    OtherPair(pairs, parse, e.0);
  }

  /** A new level takes the last place: its first pair is the newest. */
  lemma MissRanked<K, T>(pairs: seq<Pair<T>>, parse: string -> Option<K>, es: seq<(K, T)>, k: K)
    requires pairs != [] && parse(pairs[|pairs| - 1].key) == Some(k) && Ranked(pairs[..|pairs| - 1], parse, es)
    requires IndexOf(es, k) < 0 && FirstOf(pairs, parse, k) == LastOf(pairs, parse, k) == |pairs| - 1
    ensures Ranked(pairs, parse, es + [(k, pairs[|pairs| - 1].val)])
  {
    var n := |pairs| - 1;
    forall m | 0 <= m < |es|
      ensures OldEntry(pairs, parse, es[m])
    {
      OldLevel(pairs, parse, k, es[m]);
    }
    RankedAppend(pairs, parse, es, (k, pairs[n].val));
  }

  /** The entry of a level that was met before the last pair, and not in it. */
  ghost predicate OldEntry<K, T>(pairs: seq<Pair<T>>, parse: string -> Option<K>, e: (K, T))
    requires pairs != []
  {
    ValueOfLast(pairs, parse, e) && FirstOf(pairs, parse, e.0) == FirstOf(pairs[..|pairs| - 1], parse, e.0) < |pairs| - 1
  }

  lemma RankedAppend<K, T>(pairs: seq<Pair<T>>, parse: string -> Option<K>, es: seq<(K, T)>, e: (K, T))
    requires pairs != [] && Ranked(pairs[..|pairs| - 1], parse, es) && (forall m :: 0 <= m < |es| ==> OldEntry(pairs, parse, es[m]))
    requires ValueOfLast(pairs, parse, e) && FirstOf(pairs, parse, e.0) == |pairs| - 1
    ensures Ranked(pairs, parse, es + [e])
  {
    forall a, b | 0 <= a < b < |es| + 1
      ensures FirstOf(pairs, parse, (es + [e])[a].0) < FirstOf(pairs, parse, (es + [e])[b].0)
    {
      assert OldEntry(pairs, parse, es[a]);
      assert b < |es| ==> OldEntry(pairs, parse, es[b]);
    }
  }

  lemma MissComplete<K, T>(pairs: seq<Pair<T>>, parse: string -> Option<K>, es: seq<(K, T)>, e: (K, T))
    requires pairs != [] && Complete(pairs[..|pairs| - 1], parse, es) && parse(pairs[|pairs| - 1].key) == Some(e.0)
    ensures Complete(pairs, parse, es + [e])
  {
    forall i | 0 <= i < |pairs| && parse(pairs[i].key).Some?
      ensures IndexOf(es + [e], parse(pairs[i].key).value) >= 0
    {
      assert i < |pairs| - 1 ==> pairs[..|pairs| - 1][i] == pairs[i];
      Appended(es, e, parse(pairs[i].key).value);
    }
  }

  lemma {:induction false} FoldHasOneEach<K, T>(pairs: seq<Pair<T>>, parse: string -> Option<K>)
    ensures OneEach(pairs, parse, FoldEntries(pairs, parse))
  {
    if pairs != [] {
      var n := |pairs| - 1;
      var es := FoldEntries(pairs[..n], parse);
      FoldHasOneEach(pairs[..n], parse);
      match parse(pairs[n].key)
      case None => KeptEach(pairs, parse, es);
      case Some(k) =>
        if IndexOf(es, k) >= 0 {
          var j := IndexOf(es, k);
          HitRanked(pairs, parse, es, k, j);
          HitComplete(pairs, parse, es, es[j := (k, pairs[n].val)], j);
        } else {
          NewLevel(pairs, parse, es, k);
          MissRanked(pairs, parse, es, k);
          MissComplete(pairs, parse, es, (k, pairs[n].val));
        }
    }
  }

  ghost predicate Sorted<K, T>(es: seq<(K, T)>, rank: K -> int) {
    forall a, b :: 0 <= a < b < |es| ==> rank(es[a].0) < rank(es[b].0)
  }

  ghost predicate Within<E>(es: seq<E>, fs: seq<E>) {
    forall i :: 0 <= i < |es| ==> es[i] in fs
  }

  /** Two lists in strict order with the same elements are one list. */
  lemma {:induction false} SameSorted<K, T>(es: seq<(K, T)>, fs: seq<(K, T)>, rank: K -> int)
    requires Sorted(es, rank) && Sorted(fs, rank) && Within(es, fs) && Within(fs, es)
    ensures es == fs
  {
    assert es != [] ==> es[0] in fs;
    assert fs != [] ==> fs[0] in es;
    if es != [] {
      var m, n := |es| - 1, |fs| - 1;
      assert es[m] in fs && fs[n] in es;
      assert es[m] == fs[n];
      SameButLast(es, fs, rank);
      SameButLast(fs, es, rank);
      SameSorted(es[..m], fs[..n], rank);
      assert es == es[..m] + [es[m]] && fs == fs[..n] + [fs[n]];
    }
  }

  lemma SameButLast<K, T>(es: seq<(K, T)>, fs: seq<(K, T)>, rank: K -> int)
    requires Sorted(es, rank) && es != [] && fs != [] && es[|es| - 1] == fs[|fs| - 1] && Within(es, fs)
    ensures Sorted(es[..|es| - 1], rank) && Within(es[..|es| - 1], fs[..|fs| - 1])
  {
    var init := fs[..|fs| - 1];
    forall i | 0 <= i < |es| - 1
      ensures es[i] in init
    {
      var j :| 0 <= j < |fs| && fs[j] == es[i];
      assert rank(es[i].0) < rank(es[|es| - 1].0);
      assert init[j] == es[i];
    }
  }

  lemma EachIn<K, T>(pairs: seq<Pair<T>>, parse: string -> Option<K>, es: seq<(K, T)>, fs: seq<(K, T)>)
    requires OneEach(pairs, parse, es) && OneEach(pairs, parse, fs)
    ensures Within(es, fs)
  {
    forall i | 0 <= i < |es|
      ensures es[i] in fs
    {
      assert ValueOfLast(pairs, parse, es[i]);
      var last := LastOf(pairs, parse, es[i].0);
      var j := IndexOf(fs, es[i].0);
      assert parse(pairs[last].key) == Some(es[i].0);
      assert ValueOfLast(pairs, parse, fs[j]);
      assert fs[j] == es[i];
    }
  }

  /** Folding gives exactly that: no other list has one entry per level, in that order, with those values. */
  lemma FoldedEntries<K, T>(pairs: seq<Pair<T>>, parse: string -> Option<K>, es: seq<(K, T)>)
    ensures es == FoldEntries(pairs, parse) <==> OneEach(pairs, parse, es)
  {
    FoldHasOneEach(pairs, parse);
    if OneEach(pairs, parse, es) {
      var fs := FoldEntries(pairs, parse);
      EachIn(pairs, parse, es, fs);
      EachIn(pairs, parse, fs, es);
      SameSorted(es, fs, k => FirstOf(pairs, parse, k));
    }
  }

  // ----- the loops -----

  const LINEAR_FOLD: nat := 16

  /** The scratch record of one folded entry. */
  datatype Fold = Fold(first: nat, bad: bool)

  /** What the loop's bookkeeping means after the first n pairs: where[k] is the entry pair k went to, lasts[j] the last pair of entry j. */
  ghost predicate Tracks<K(!new), T(!new)>(pairs: seq<Pair<T>>, parse: string -> Option<K>, n: nat, entries: seq<(K, T)>,
                                 folds: seq<Fold>, where: seq<int>, lasts: seq<nat>)
  {
    && n == |where| <= |pairs| && |entries| == |folds| == |lasts|
    && InOrder(entries, folds)
    && PairsPlaced(pairs, parse, entries, folds, where, lasts)
    && FoldsPlaced(pairs, folds, where, lasts)
  }

  ghost predicate InOrder<K(!new), T(!new)>(entries: seq<(K, T)>, folds: seq<Fold>)
    requires |entries| == |folds|
  {
    forall a, b :: 0 <= a < b < |entries| ==> entries[a].0 != entries[b].0 && folds[a].first < folds[b].first
  }

  ghost predicate PairsPlaced<K(!new), T(!new)>(pairs: seq<Pair<T>>, parse: string -> Option<K>, entries: seq<(K, T)>,
                                                folds: seq<Fold>, where: seq<int>, lasts: seq<nat>)
    requires |where| <= |pairs| && |entries| == |folds| == |lasts|
  {
    && (forall k :: 0 <= k < |where| ==> -1 <= where[k] < |entries| && (where[k] < 0 <==> parse(pairs[k].key).None?))
    && (forall k :: 0 <= k < |where| && where[k] >= 0 ==>
          parse(pairs[k].key) == Some(entries[where[k]].0) && folds[where[k]].first <= k <= lasts[where[k]])
  }

  ghost predicate FoldsPlaced<T(!new)>(pairs: seq<Pair<T>>, folds: seq<Fold>, where: seq<int>, lasts: seq<nat>)
    requires |where| <= |pairs| && |folds| == |lasts|
  {
    && (forall j :: 0 <= j < |folds| ==> folds[j].first < |where| && where[folds[j].first] == j)
    && (forall j :: 0 <= j < |folds| ==> lasts[j] < |where| && where[lasts[j]] == j && folds[j].bad == pairs[lasts[j]].bad)
  }

  /** Some entry was met under two spellings. */
  ghost predicate Mixed<T>(pairs: seq<Pair<T>>, folds: seq<Fold>, where: seq<int>)
    requires |where| <= |pairs|
    requires forall k :: 0 <= k < |where| && where[k] >= 0 ==> where[k] < |folds| && folds[where[k]].first < |pairs|
  {
    exists k :: 0 <= k < |where| && where[k] >= 0 && pairs[folds[where[k]].first].key != pairs[k].key
  }

  /** firstFailure: the first unreadable key, or the first entry whose last value is bad, whichever comes first. */
  method FirstFailure(badKey: int, folds: seq<Fold>) returns (pos: int)
    requires badKey >= -1
    requires forall a, b :: 0 <= a < b < |folds| ==> folds[a].first < folds[b].first
    ensures pos == badKey || exists j :: 0 <= j < |folds| && folds[j].bad && pos == folds[j].first
    ensures badKey >= 0 ==> 0 <= pos <= badKey
    ensures forall j :: 0 <= j < |folds| && folds[j].bad ==> 0 <= pos <= folds[j].first
  {
    pos := badKey;
    for i := 0 to |folds|
      invariant pos == badKey
      invariant forall j :: 0 <= j < i ==> !folds[j].bad
    {
      if folds[i].bad {
        if pos < 0 || folds[i].first < pos {
          return folds[i].first;
        }
        break;
      }
    }
  }

  /** When no entry has two spellings, its first pair is its spelling's first and its last pair its spelling's last. */
  lemma OneSpelling<K(!new), T(!new)>(pairs: seq<Pair<T>>, parse: string -> Option<K>, entries: seq<(K, T)>,
                          folds: seq<Fold>, where: seq<int>, lasts: seq<nat>, k: nat)
    requires Tracks(pairs, parse, |pairs|, entries, folds, where, lasts)
    requires !Mixed(pairs, folds, where)
    requires k < |pairs| && where[k] >= 0
    ensures FailsAt(pairs, parse, k) <==> k == folds[where[k]].first && folds[where[k]].bad
  {
    var j := where[k];
    var f, l := folds[j].first, lasts[j];
    assert pairs[f].key == pairs[k].key && pairs[l].key == pairs[k].key;
    forall m | 0 <= m < |pairs| && pairs[m].key == pairs[k].key
      ensures where[m] == j
    {
    }
    assert LastIndex(pairs, pairs[k].key) == l;
  }

  /** firstFailure agrees with the rule whenever no level has two spellings. */
  lemma FirstFailureAgrees<K(!new), T(!new)>(pairs: seq<Pair<T>>, parse: string -> Option<K>, entries: seq<(K, T)>,
                                 folds: seq<Fold>, where: seq<int>, lasts: seq<nat>, badKey: int, pos: int)
    requires Tracks(pairs, parse, |pairs|, entries, folds, where, lasts)
    requires !Mixed(pairs, folds, where)
    requires -1 <= badKey < |pairs|
    requires badKey >= 0 ==> where[badKey] < 0
    requires forall k :: 0 <= k < (if badKey >= 0 then badKey else |pairs|) ==> where[k] >= 0
    requires pos == badKey || exists j :: 0 <= j < |folds| && folds[j].bad && pos == folds[j].first
    requires badKey >= 0 ==> 0 <= pos <= badKey
    requires forall j :: 0 <= j < |folds| && folds[j].bad ==> 0 <= pos <= folds[j].first
    ensures FirstFailing(pairs, parse) == if pos < 0 then None else Some(pos)
  {
    forall k | 0 <= k < (if pos >= 0 then pos else |pairs|)
      ensures !FailsAt(pairs, parse, k)
    {
      OneSpelling(pairs, parse, entries, folds, where, lasts, k);
    }
    if pos < 0 {
      FirstFailingIs(pairs, parse, None);
    } else {
      if pos == badKey {
        forall j | 0 <= j < badKey
          ensures pairs[j].key != pairs[badKey].key
        {
          assert parse(pairs[j].key).Some?;
        }
      } else {
        OneSpelling(pairs, parse, entries, folds, where, lasts, pos);
      }
      FirstFailingIs(pairs, parse, Some(pos));
    }
  }

  /** The spellings of pairs. */
  function Spellings<T>(pairs: seq<Pair<T>>): set<string> {
    set m | 0 <= m < |pairs| :: pairs[m].key
  }

  lemma SpellingsGrow<T>(pairs: seq<Pair<T>>, i: nat)
    requires i < |pairs|
    ensures Spellings(pairs[..i + 1]) == Spellings(pairs[..i]) + {pairs[i].key}
    ensures pairs[i].key in Spellings(pairs)
  {
    assert forall m :: 0 <= m < i ==> pairs[..i][m] == pairs[m] == pairs[..i + 1][m];
    assert pairs[..i + 1][i] == pairs[i];
    forall s | s in Spellings(pairs[..i])
      ensures s in Spellings(pairs[..i + 1])
    {
      var m :| 0 <= m < i && pairs[..i][m].key == s;
      assert pairs[..i + 1][m].key == s;
    }
  }

  lemma FirstAtIsNew<T>(pairs: seq<Pair<T>>, i: nat)
    requires i < |pairs|
    ensures FirstAt(pairs, i) <==> pairs[i].key !in Spellings(pairs[..i])
  {
    assert forall m :: 0 <= m < i ==> pairs[..i][m] == pairs[m];
    if pairs[i].key in Spellings(pairs[..i]) {
      var m :| 0 <= m < i && pairs[..i][m].key == pairs[i].key;
      assert pairs[m].key == pairs[i].key;
    } else {
      assert forall m :: 0 <= m < i ==> pairs[..i][m].key in Spellings(pairs[..i]);
    }
  }

  /** Whether the spelling at i, with last value at last, fails there. */
  lemma SpellingFails<K, T>(pairs: seq<Pair<T>>, parse: string -> Option<K>, i: nat)
    requires i < |pairs|
    ensures FailsAt(pairs, parse, i) <==>
            && pairs[i].key !in Spellings(pairs[..i])
            && (parse(pairs[i].key).None? || pairs[LastIndex(pairs, pairs[i].key)].bad)
  {
    FirstAtIsNew(pairs, i);
  }

  /** The last position of each spelling. */
  method LastPositions<T>(pairs: seq<Pair<T>>) returns (lastOf: map<string, nat>)
    ensures lastOf.Keys == Spellings(pairs)
    ensures forall s :: s in lastOf ==> lastOf[s] == LastIndex(pairs, s)
  {
    lastOf := map[];
    for i := 0 to |pairs|
      invariant forall k :: 0 <= k < i ==> pairs[k].key in lastOf
      invariant forall s :: s in lastOf ==> lastOf[s] < i && pairs[lastOf[s]].key == s
      invariant forall s, k :: s in lastOf && lastOf[s] < k < i ==> pairs[k].key != s
    {
      lastOf := lastOf[pairs[i].key := i];
    }
  }

  /** The spellings not yet validated, each with its last position. */
  ghost predicate Unvalidated<T>(pairs: seq<Pair<T>>, i: nat, lastOf: map<string, nat>)
    requires i <= |pairs|
  {
    && lastOf.Keys == Spellings(pairs) - Spellings(pairs[..i])
    && forall s :: s in lastOf ==> lastOf[s] == LastIndex(pairs, s)
  }

  /** One turn of spellingFailure: the spelling at i, unless it was validated before. */
  method ValidateSpelling<K(!new), T(!new)>(pairs: seq<Pair<T>>, parse: string -> Option<K>, i: nat, lastOf: map<string, nat>)
    returns (fails: bool, rest: map<string, nat>)
    requires i < |pairs| && Unvalidated(pairs, i, lastOf)
    ensures fails <==> FailsAt(pairs, parse, i)
    ensures Unvalidated(pairs, i + 1, rest)
  {
    SpellingsGrow(pairs, i);
    SpellingFails(pairs, parse, i);
    var k := pairs[i].key;
    rest := lastOf - {k};
    if k !in lastOf {
      return false, rest;
    }
    return parse(k).None? || pairs[lastOf[k]].bad, rest;
  }

  /** spellingFailure: each spelling validated once, at its first position with its last value. */
  method SpellingFailure<K(!new), T(!new)>(pairs: seq<Pair<T>>, parse: string -> Option<K>) returns (pos: int)
    ensures FirstFailing(pairs, parse) == if pos < 0 then None else Some(pos)
  {
    var lastOf := LastPositions(pairs);
    assert Spellings(pairs[..0]) == {};
    for i := 0 to |pairs|
      invariant Unvalidated(pairs, i, lastOf)
      invariant forall k :: 0 <= k < i ==> !FailsAt(pairs, parse, k)
    {
      var fails;
      fails, lastOf := ValidateSpelling(pairs, parse, i, lastOf);
      if fails {
        FirstFailingIs(pairs, parse, Some(i));
        return i;
      }
    }
    FirstFailingIs(pairs, parse, None);
    return -1;
  }

  /** The scratch index of a long fold. */
  ghost predicate Indexed<K(!new), T>(entries: seq<(K, T)>, index: map<K, nat>) {
    && (forall k :: k in index <==> IndexOf(entries, k) >= 0)
    && (forall k :: k in index ==> index[k] == IndexOf(entries, k))
  }

  /** An unreadable key goes to no entry. */
  lemma TrackNone<K(!new), T(!new)>(pairs: seq<Pair<T>>, parse: string -> Option<K>, i: nat, entries: seq<(K, T)>,
                                    folds: seq<Fold>, where: seq<int>, lasts: seq<nat>)
    requires Tracks(pairs, parse, i, entries, folds, where, lasts) && i < |pairs|
    requires parse(pairs[i].key).None?
    ensures Tracks(pairs, parse, i + 1, entries, folds, where + [-1], lasts)
    ensures Mixed(pairs, folds, where + [-1]) <==> Mixed(pairs, folds, where)
  {
    var where' := where + [-1];
    assert forall k :: 0 <= k < i ==> where'[k] == where[k];
  }

  lemma HitPairs<K(!new), T(!new)>(pairs: seq<Pair<T>>, parse: string -> Option<K>, entries: seq<(K, T)>, folds: seq<Fold>,
                                   where: seq<int>, lasts: seq<nat>, j: nat, val: T, bad: bool)
    requires |where| < |pairs| && |entries| == |folds| == |lasts| && j < |entries|
    requires PairsPlaced(pairs, parse, entries, folds, where, lasts) && FoldsPlaced(pairs, folds, where, lasts)
    requires parse(pairs[|where|].key) == Some(entries[j].0)
    ensures PairsPlaced(pairs, parse, entries[j := (entries[j].0, val)], folds[j := folds[j].(bad := bad)], where + [j], lasts[j := |where|])
  {
    var entries', folds' := entries[j := (entries[j].0, val)], folds[j := folds[j].(bad := bad)];
    assert forall m :: 0 <= m < |entries| ==> entries'[m].0 == entries[m].0 && folds'[m].first == folds[m].first;
  }

  lemma HitFolds<T(!new)>(pairs: seq<Pair<T>>, folds: seq<Fold>, where: seq<int>, lasts: seq<nat>, j: nat)
    requires |where| < |pairs| && |folds| == |lasts| && j < |folds| && FoldsPlaced(pairs, folds, where, lasts)
    ensures FoldsPlaced(pairs, folds[j := folds[j].(bad := pairs[|where|].bad)], where + [j], lasts[j := |where|])
  {
    var folds' := folds[j := folds[j].(bad := pairs[|where|].bad)];
    assert forall m :: 0 <= m < |folds| ==> folds'[m].first == folds[m].first;
  }

  /** A level met before keeps its entry, which takes the new value. */
  lemma TrackHit<K(!new), T(!new)>(pairs: seq<Pair<T>>, parse: string -> Option<K>, i: nat, entries: seq<(K, T)>,
                                   folds: seq<Fold>, where: seq<int>, lasts: seq<nat>, j: nat)
    requires Tracks(pairs, parse, i, entries, folds, where, lasts) && i < |pairs|
    requires j < |entries| && parse(pairs[i].key) == Some(entries[j].0)
    ensures Tracks(pairs, parse, i + 1, entries[j := (entries[j].0, pairs[i].val)], folds[j := folds[j].(bad := pairs[i].bad)],
                   where + [j], lasts[j := i])
  {
    var entries', folds' := entries[j := (entries[j].0, pairs[i].val)], folds[j := folds[j].(bad := pairs[i].bad)];
    forall m | 0 <= m < |entries|
      ensures entries'[m].0 == entries[m].0 && folds'[m].first == folds[m].first
    {
    }
    HitPairs(pairs, parse, entries, folds, where, lasts, j, pairs[i].val, pairs[i].bad);
    HitFolds(pairs, folds, where, lasts, j);
  }

  lemma MixedHit<T(!new)>(pairs: seq<Pair<T>>, folds: seq<Fold>, where: seq<int>, j: nat, bad: bool)
    requires |where| < |pairs| && j < |folds| && folds[j].first < |pairs|
    requires forall k :: 0 <= k < |where| && where[k] >= 0 ==> where[k] < |folds| && folds[where[k]].first < |pairs|
    ensures Mixed(pairs, folds[j := folds[j].(bad := bad)], where + [j]) <==>
            Mixed(pairs, folds, where) || pairs[folds[j].first].key != pairs[|where|].key
  {
    var folds', where' := folds[j := folds[j].(bad := bad)], where + [j];
    assert forall k :: 0 <= k < |where| ==> where'[k] == where[k];
    assert where'[|where|] == j;
    assert forall m :: 0 <= m < |folds| ==> folds'[m].first == folds[m].first;
  }

  /** A level not met before starts an entry. */
  lemma TrackMiss<K(!new), T(!new)>(pairs: seq<Pair<T>>, parse: string -> Option<K>, i: nat, entries: seq<(K, T)>,
                                    folds: seq<Fold>, where: seq<int>, lasts: seq<nat>, k: K)
    requires Tracks(pairs, parse, i, entries, folds, where, lasts) && i < |pairs|
    requires parse(pairs[i].key) == Some(k) && forall j :: 0 <= j < |entries| ==> entries[j].0 != k
    ensures Tracks(pairs, parse, i + 1, entries + [(k, pairs[i].val)], folds + [Fold(i, pairs[i].bad)], where + [|entries|], lasts + [i])
  {
    var entries', folds' := entries + [(k, pairs[i].val)], folds + [Fold(i, pairs[i].bad)];
    var where', lasts' := where + [|entries|], lasts + [i];
    forall a, b | 0 <= a < b < |entries'|
      ensures entries'[a].0 != entries'[b].0 && folds'[a].first < folds'[b].first
    {
    }
    forall m | 0 <= m < i + 1
      ensures -1 <= where'[m] < |entries'| && (where'[m] < 0 <==> parse(pairs[m].key).None?)
      ensures where'[m] >= 0 ==> parse(pairs[m].key) == Some(entries'[where'[m]].0) && folds'[where'[m]].first <= m <= lasts'[where'[m]]
    {
    }
    forall j | 0 <= j < |folds'|
      ensures folds'[j].first < i + 1 && where'[folds'[j].first] == j
      ensures lasts'[j] < i + 1 && where'[lasts'[j]] == j && folds'[j].bad == pairs[lasts'[j]].bad
    {
    }
  }

  lemma MixedMiss<T(!new)>(pairs: seq<Pair<T>>, folds: seq<Fold>, where: seq<int>, bad: bool)
    requires |where| < |pairs|
    requires forall k :: 0 <= k < |where| && where[k] >= 0 ==> where[k] < |folds| && folds[where[k]].first < |pairs|
    ensures Mixed(pairs, folds + [Fold(|where|, bad)], where + [|folds|]) <==> Mixed(pairs, folds, where)
  {
    var folds', where' := folds + [Fold(|where|, bad)], where + [|folds|];
    assert forall m :: 0 <= m < |where| ==> where'[m] == where[m];
    assert forall m :: 0 <= m < |folds| ==> folds'[m] == folds[m];
    assert where'[|where|] == |folds| && folds'[|folds|].first == |where|;
  }

  /** The index and the entries change together. */
  lemma IndexMiss<K(!new), T>(entries: seq<(K, T)>, index: map<K, nat>, k: K, val: T)
    requires Indexed(entries, index) && k !in index
    ensures Indexed(entries + [(k, val)], index[k := |entries|])
  {
    assert (entries + [(k, val)])[..|entries|] == entries;
  }

  lemma IndexedHit<K(!new), T>(entries: seq<(K, T)>, index: map<K, nat>, j: nat, val: T)
    requires Indexed(entries, index) && j < |entries|
    ensures Indexed(entries[j := (entries[j].0, val)], index)
  {
    forall k
      ensures IndexOf(entries[j := (entries[j].0, val)], k) == IndexOf(entries, k)
    {
      IndexHit(entries, j, val, k);
    }
  }

  lemma {:induction false} IndexHit<K, T>(entries: seq<(K, T)>, j: nat, val: T, k: K)
    requires j < |entries|
    ensures IndexOf(entries[j := (entries[j].0, val)], k) == IndexOf(entries, k)
  {
    var es := entries[j := (entries[j].0, val)];
    var n := |entries| - 1;
    if entries[n].0 != k {
      if j == n {
        assert es[..n] == entries[..n];
      } else {
        IndexHit(entries[..n], j, val, k);
        assert es[..n] == entries[..n][j := (entries[j].0, val)];
      }
    }
  }

  /** The loop's state after i pairs: the entries kept, their scratch records, the first unreadable key, whether spellings mix. */
  datatype Folding<K, T> = Folding(entries: seq<(K, T)>, folds: seq<Fold>, badKey: int, mixed: bool, index: map<K, nat>)

  ghost predicate FoldInv<K(!new), T(!new)>(pairs: seq<Pair<T>>, parse: string -> Option<K>, i: nat, f: Folding<K, T>,
                                                useMap: bool, where: seq<int>, lasts: seq<nat>)
  {
    && i <= |pairs|
    && f.entries == FoldEntries(pairs[..i], parse)
    && Tracks(pairs, parse, i, f.entries, f.folds, where, lasts)
    && (f.mixed <==> Mixed(pairs, f.folds, where))
    && -1 <= f.badKey < i
    && (f.badKey >= 0 ==> where[f.badKey] < 0)
    && (forall k :: 0 <= k < (if f.badKey >= 0 then f.badKey else i) ==> where[k] >= 0)
    && (useMap ==> Indexed(f.entries, f.index))
  }

  lemma InvNone<K(!new), T(!new)>(pairs: seq<Pair<T>>, parse: string -> Option<K>, i: nat, f: Folding<K, T>, useMap: bool,
                                  where: seq<int>, lasts: seq<nat>)
    requires i < |pairs| && FoldInv(pairs, parse, i, f, useMap, where, lasts)
    requires parse(pairs[i].key).None?
    ensures FoldInv(pairs, parse, i + 1, f.(badKey := if f.badKey < 0 then i else f.badKey), useMap, where + [-1], lasts)
  {
    assert pairs[..i + 1][..i] == pairs[..i];
    TrackNone(pairs, parse, i, f.entries, f.folds, where, lasts);
  }

  lemma InvHit<K(!new), T(!new)>(pairs: seq<Pair<T>>, parse: string -> Option<K>, i: nat, f: Folding<K, T>, useMap: bool,
                                 where: seq<int>, lasts: seq<nat>, j: nat)
    requires i < |pairs| && FoldInv(pairs, parse, i, f, useMap, where, lasts)
    requires j < |f.entries| && parse(pairs[i].key) == Some(f.entries[j].0) && IndexOf(f.entries, f.entries[j].0) == j
    ensures var l := pairs[i];
            FoldInv(pairs, parse, i + 1,
                    f.(mixed := f.mixed || pairs[f.folds[j].first].key != l.key, entries := f.entries[j := (f.entries[j].0, l.val)],
                       folds := f.folds[j := f.folds[j].(bad := l.bad)]),
                    useMap, where + [j], lasts[j := i])
  {
    assert pairs[..i + 1][..i] == pairs[..i];
    assert FoldEntries(pairs[..i + 1], parse) == PutEntry(f.entries, f.entries[j].0, pairs[i].val);
    TrackHit(pairs, parse, i, f.entries, f.folds, where, lasts, j);
    MixedHit(pairs, f.folds, where, j, pairs[i].bad);
    if useMap {
      IndexedHit(f.entries, f.index, j, pairs[i].val);
    }
  }

  lemma InvMiss<K(!new), T(!new)>(pairs: seq<Pair<T>>, parse: string -> Option<K>, i: nat, f: Folding<K, T>, useMap: bool,
                                  where: seq<int>, lasts: seq<nat>, k: K)
    requires i < |pairs| && FoldInv(pairs, parse, i, f, useMap, where, lasts)
    requires parse(pairs[i].key) == Some(k) && IndexOf(f.entries, k) < 0
    ensures FoldInv(pairs, parse, i + 1,
                    f.(index := if useMap then f.index[k := |f.entries|] else f.index,
                       entries := f.entries + [(k, pairs[i].val)], folds := f.folds + [Fold(i, pairs[i].bad)]),
                    useMap, where + [|f.entries|], lasts + [i])
  {
    assert pairs[..i + 1][..i] == pairs[..i];
    assert FoldEntries(pairs[..i + 1], parse) == PutEntry(f.entries, k, pairs[i].val);
    TrackMiss(pairs, parse, i, f.entries, f.folds, where, lasts, k);
    MixedMiss(pairs, f.folds, where, pairs[i].bad);
    if useMap {
      IndexMiss(f.entries, f.index, k, pairs[i].val);
    }
  }

  /** The entry a pair goes to: its level's, a new one, or none. */
  function Goes<K(==), T>(entries: seq<(K, T)>, level: Option<K>): (j: int)
    ensures -1 <= j <= |entries|
  {
    match level
    case None => -1
    case Some(k) => if IndexOf(entries, k) >= 0 then IndexOf(entries, k) else |entries|
  }

  /** The last pair of each entry once pair i went to entry j. */
  function LastsAfter(lasts: seq<nat>, j: int, i: nat): seq<nat> {
    if j < 0 then lasts else if j < |lasts| then lasts[j := i] else lasts + [i]
  }

  /** One turn of the loop, over the pair at i. */
  method FoldOne<K(==, !new), T(!new)>(pairs: seq<Pair<T>>, parse: string -> Option<K>, i: nat, f: Folding<K, T>, useMap: bool,
                                       ghost where: seq<int>, ghost lasts: seq<nat>)
    returns (g: Folding<K, T>)
    requires i < |pairs| && FoldInv(pairs, parse, i, f, useMap, where, lasts)
    ensures var j := Goes(f.entries, parse(pairs[i].key));
            FoldInv(pairs, parse, i + 1, g, useMap, where + [j], LastsAfter(lasts, j, i))
  {
    var l := pairs[i];
    match parse(l.key) {
      case None =>
        InvNone(pairs, parse, i, f, useMap, where, lasts);
        g := f.(badKey := if f.badKey < 0 then i else f.badKey);
      case Some(k) =>
        var j := FindEntry(f.entries, k, useMap, f.index);
        if j >= 0 {
          InvHit(pairs, parse, i, f, useMap, where, lasts, j);
          g := f.(mixed := f.mixed || pairs[f.folds[j].first].key != l.key, entries := f.entries[j := (k, l.val)],
                  folds := f.folds[j := f.folds[j].(bad := l.bad)]);
        } else {
          InvMiss(pairs, parse, i, f, useMap, where, lasts, k);
          g := f.(index := if useMap then f.index[k := |f.entries|] else f.index,
                  entries := f.entries + [(k, l.val)], folds := f.folds + [Fold(i, l.bad)]);
        }
    }
  }

  /** foldLegend, foldLevels and foldLabels: one algorithm over different values; a label parses to itself. */
  method FoldPairs<K(==, !new), T(!new)>(pairs: seq<Pair<T>>, parse: string -> Option<K>) returns (failure: Option<nat>, entries: seq<(K, T)>)
    ensures failure == FirstFailing(pairs, parse)
    ensures entries == FoldEntries(pairs, parse)
  {
    var f: Folding<K, T> := Folding([], [], -1, false, map[]);
    ghost var where: seq<int> := [];
    ghost var lasts: seq<nat> := [];
    for i := 0 to |pairs|
      invariant FoldInv(pairs, parse, i, f, |pairs| > LINEAR_FOLD, where, lasts)
    {
      ghost var j := Goes(f.entries, parse(pairs[i].key));
      f := FoldOne(pairs, parse, i, f, |pairs| > LINEAR_FOLD, where, lasts);
      where, lasts := where + [j], LastsAfter(lasts, j, i);
    }
    assert pairs[..|pairs|] == pairs;
    entries := f.entries;
    var pos := FirstFailure(f.badKey, f.folds);
    if f.mixed {
      pos := SpellingFailure(pairs, parse);
    } else {
      FirstFailureAgrees(pairs, parse, entries, f.folds, where, lasts, f.badKey, pos);
    }
    failure := if pos < 0 then None else Some(pos);
  }

  /** The lookup of a level already folded: hashed past LINEAR_FOLD entries, scanned below. */
  method FindEntry<K(==, !new), T>(entries: seq<(K, T)>, k: K, useMap: bool, index: map<K, nat>) returns (j: int)
    requires forall a, b :: 0 <= a < b < |entries| ==> entries[a].0 != entries[b].0
    requires useMap ==> Indexed(entries, index)
    ensures j == IndexOf(entries, k)
  {
    if useMap {
      return if k in index then index[k] else -1;
    }
    j := ScanEntries(entries, k);
  }

  /** The linear search of a short fold. */
  method ScanEntries<K(==), T>(entries: seq<(K, T)>, k: K) returns (j: int)
    requires forall a, b :: 0 <= a < b < |entries| ==> entries[a].0 != entries[b].0
    ensures j == IndexOf(entries, k)
  {
    j := 0;
    while j < |entries|
      invariant 0 <= j <= |entries|
      invariant forall m :: 0 <= m < j ==> entries[m].0 != k
    {
      if entries[j].0 == k {
        return;
      }
      j := j + 1;
    }
    j := -1;
  }
}
