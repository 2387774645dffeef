/**
 * The high-score table kept in browser storage under one key: per tier a list of entries, best
 * score first, at most ten long. Recording a win appends the entry, sorts the list stably by
 * descending score and keeps the first ten.
 */
module Leaderboard {
  import opened Levels

  datatype Option<T> = None | Some(value: T)

  /** `{score, time, moves, date}`; the ISO timestamp is an opaque string. */
  datatype Entry = Entry(score: int, time: int, moves: int, date: string)

  /** The stored record `{easy: [...], medium: [...], hard: [...]}`. */
  datatype Board = Board(easy: seq<Entry>, medium: seq<Entry>, hard: seq<Entry>)
  {
    function Get(tier: Difficulty): seq<Entry>
    {
      match tier
      case Easy => easy
      case Medium => medium
      case Hard => hard
    }

    /** The board with one tier's list replaced. */
    function Set(tier: Difficulty, list: seq<Entry>): (b: Board)
      ensures b.Get(tier) == list
      ensures forall other :: other != tier ==> b.Get(other) == Get(other)
    {
      match tier
      case Easy => this.(easy := list)
      case Medium => this.(medium := list)
      case Hard => this.(hard := list)
    }
  }

  /** The default used when nothing is stored. */
  const EmptyBoard := Board([], [], [])

  /** How many entries a tier keeps. */
  const Capacity := 10

  /** What a read of the storage key yields: the stored board, or the default when absent. */
  function Load(item: Option<Board>): (b: Board)
    ensures item.None? ==> forall tier :: b.Get(tier) == []
    ensures item.Some? ==> b == item.value
  {
    match item
    case None => EmptyBoard
    case Some(board) => board
  }

  ghost predicate SortedDesc(s: seq<Entry>)
  {
    forall i, j :: 0 <= i < j < |s| ==> s[i].score >= s[j].score
  }

  /** Every tier is short enough and best-first. */
  ghost predicate WellFormed(b: Board)
  {
    forall tier :: |b.Get(tier)| <= Capacity && SortedDesc(b.Get(tier))
  }

  /** Places `e` after every leading entry that scores at least as much (the stable position). */
  function Insert(s: seq<Entry>, e: Entry): (r: seq<Entry>)
    ensures |r| == |s| + 1
    ensures forall k :: 0 <= k < |r| ==> r[k] == e || r[k] in s
    ensures SortedDesc(s) ==> SortedDesc(r)
  {
    if s == [] then [e]
    else if s[0].score >= e.score then
      assert s == [s[0]] + s[1..];
      [s[0]] + Insert(s[1..], e)
    else [e] + s
  }

  /**
   * `list.sort((a, b) => b.score - a.score)`, which is stable: an insertion sort that takes the
   * entries in list order.
   */
  function SortDesc(s: seq<Entry>): (r: seq<Entry>)
    ensures |r| == |s|
    ensures SortedDesc(r)
  {
    if s == [] then [] else Insert(SortDesc(s[..|s| - 1]), s[|s| - 1])
  }

  lemma {:induction false} InsertPermutes(s: seq<Entry>, e: Entry)
    ensures multiset(Insert(s, e)) == multiset(s) + multiset{e}
  {
    if s != [] && s[0].score >= e.score {
      InsertPermutes(s[1..], e);
      assert s == [s[0]] + s[1..];
    }
  }

  /** The sort only reorders: the sorted list holds the same entries, each as often. */
  lemma {:induction false} SortDescPermutes(s: seq<Entry>)
    ensures multiset(SortDesc(s)) == multiset(s)
  {
    if s != [] {
      var init, last := s[..|s| - 1], s[|s| - 1];
      var sortedInit := SortDesc(init);
      assert multiset(s) == multiset(init) + multiset{last} by {
        assert s == init + [last];
      }
      calc {
        multiset(SortDesc(s));
        multiset(Insert(sortedInit, last));
        { InsertPermutes(sortedInit, last); }
        multiset(sortedInit) + multiset{last};
        { SortDescPermutes(init); }
        multiset(init) + multiset{last};
      }
    }
  }

  /** `list.slice(0, 10)`. */
  function Take(s: seq<Entry>): (r: seq<Entry>)
    ensures |r| == Min(|s|, Capacity)
    ensures r == s[..|r|]
  {
    s[..Min(|s|, Capacity)]
  }

  /** The new list of a tier after a win with `entry` is recorded. */
  function Record(list: seq<Entry>, entry: Entry): (r: seq<Entry>)
    ensures |r| == Min(|list| + 1, Capacity)
    ensures SortedDesc(r)
  {
    Take(SortDesc(list + [entry]))
  }

  /**
   * Recording keeps only entries of the old list and the new one; while the tier has room,
   * nothing is dropped.
   */
  lemma RecordEntries(list: seq<Entry>, entry: Entry)
    ensures multiset(Record(list, entry)) <= multiset(list) + multiset{entry}
    ensures |list| < Capacity ==> multiset(Record(list, entry)) == multiset(list) + multiset{entry}
  {
    var sorted := SortDesc(list + [entry]);
    var kept := Record(list, entry);
    SortDescPermutes(list + [entry]);
    assert multiset(sorted) == multiset(kept) + multiset(sorted[|kept|..]) by {
      assert sorted == kept + sorted[|kept|..];
    }
    assert multiset(list + [entry]) == multiset(list) + multiset{entry};
  }

  /** The entries of `s` that score exactly `k`, in order. */
  function WithScore(s: seq<Entry>, k: int): seq<Entry>
  {
    if s == [] then []
    else (if s[0].score == k then [s[0]] else []) + WithScore(s[1..], k)
  }

  lemma WithScoreCons(x: Entry, s: seq<Entry>, k: int)
    ensures WithScore([x] + s, k) == (if x.score == k then [x] else []) + WithScore(s, k)
  {
    assert ([x] + s)[1..] == s;
  }

  lemma SortedTail(s: seq<Entry>)
    requires SortedDesc(s) && s != []
    ensures SortedDesc(s[1..])
    ensures forall i :: 0 <= i < |s| ==> s[i].score <= s[0].score
  {
    assert forall i :: 0 <= i < |s[1..]| ==> s[1..][i] == s[i + 1];
  }

  lemma {:induction false} WithScoreAppend(a: seq<Entry>, b: seq<Entry>, k: int)
    ensures WithScore(a + b, k) == WithScore(a, k) + WithScore(b, k)
  {
    if a == [] {
      assert a + b == b;
    } else {
      assert a + b == [a[0]] + (a[1..] + b);
      WithScoreCons(a[0], a[1..] + b, k);
      WithScoreAppend(a[1..], b, k);
    }
  }

  lemma {:induction false} WithScoreAbsent(s: seq<Entry>, k: int)
    requires forall i :: 0 <= i < |s| ==> s[i].score != k
    ensures WithScore(s, k) == []
  {
    if s != [] {
      WithScoreAbsent(s[1..], k);
    }
  }

  /** Inserting keeps the order among entries of every score and puts `e` after its equals. */
  lemma {:induction false} InsertStable(s: seq<Entry>, e: Entry, k: int)
    requires SortedDesc(s)
    ensures WithScore(Insert(s, e), k) == WithScore(s, k) + (if e.score == k then [e] else [])
  {
    var extra := if e.score == k then [e] else [];
    if s == [] {
      WithScoreCons(e, [], k);
    } else if s[0].score >= e.score {
      var head := if s[0].score == k then [s[0]] else [];
      SortedTail(s);
      InsertStable(s[1..], e, k);
      assert Insert(s, e) == [s[0]] + Insert(s[1..], e);
      WithScoreCons(s[0], Insert(s[1..], e), k);
      assert s == [s[0]] + s[1..];
      WithScoreCons(s[0], s[1..], k);
      calc {
        WithScore(Insert(s, e), k);
        head + WithScore(Insert(s[1..], e), k);
        head + (WithScore(s[1..], k) + extra);
        (head + WithScore(s[1..], k)) + extra;
        WithScore(s, k) + extra;
      }
    } else {
      SortedTail(s);
      assert Insert(s, e) == [e] + s;
      WithScoreCons(e, s, k);
      if e.score == k {
        WithScoreAbsent(s, k);
        assert WithScore(Insert(s, e), k) == [e] + [];
      }
    }
  }

  /** The sort is stable: entries with equal scores keep their relative order. */
  lemma {:induction false} SortDescStable(s: seq<Entry>, k: int)
    ensures WithScore(SortDesc(s), k) == WithScore(s, k)
  {
    if s != [] {
      var init, last := s[..|s| - 1], s[|s| - 1];
      assert s == init + [last];
      SortDescStable(init, k);
      InsertStable(SortDesc(init), last, k);
      WithScoreAppend(init, [last], k);
    }
  }

  lemma {:induction false} WithScoreHead(s: seq<Entry>)
    requires s != []
    ensures WithScore(s, s[0].score) != [] && WithScore(s, s[0].score)[0] == s[0]
  {
  }

  /** In a best-first list, the entries of score `k` are absent when `k` beats the head. */
  lemma {:induction false} WithScoreAboveHead(s: seq<Entry>, k: int)
    requires SortedDesc(s) && s != [] && k > s[0].score
    ensures WithScore(s, k) == []
  {
    WithScoreAbsent(s, k);
  }

  /**
   * A best-first list is determined by its per-score sublists, so every stable descending sort
   * (whatever algorithm the engine uses) yields the same list as SortDesc.
   */
  lemma {:induction false} StableSortUnique(a: seq<Entry>, b: seq<Entry>)
    requires SortedDesc(a) && SortedDesc(b)
    requires forall k :: WithScore(a, k) == WithScore(b, k)
    ensures a == b
  {
    if a == [] && b == [] {
    } else if a == [] {
      WithScoreHead(b);
      assert false;
    } else if b == [] {
      WithScoreHead(a);
      assert false;
    } else {
      WithScoreHead(a);
      WithScoreHead(b);
      if a[0].score > b[0].score {
        WithScoreAboveHead(b, a[0].score);
        assert false;
      } else if b[0].score > a[0].score {
        WithScoreAboveHead(a, b[0].score);
        assert false;
      }
      assert WithScore(a, a[0].score) == WithScore(b, a[0].score);
      assert a[0] == b[0];
      assert a == [a[0]] + a[1..] && b == [b[0]] + b[1..];
      forall k ensures WithScore(a[1..], k) == WithScore(b[1..], k) {
        var head := if a[0].score == k then [a[0]] else [];
        WithScoreCons(a[0], a[1..], k);
        WithScoreCons(b[0], b[1..], k);
        assert WithScore(a, k) == head + WithScore(a[1..], k);
        assert WithScore(b, k) == head + WithScore(b[1..], k);
        assert WithScore(a, k) == WithScore(b, k);
        assert WithScore(a[1..], k) == WithScore(a, k)[|head|..];
      }
      SortedTail(a);
      SortedTail(b);
      StableSortUnique(a[1..], b[1..]);
    }
  }

  /** Any list that is best-first, a permutation, and stable is the one SortDesc returns. */
  lemma SortDescIsTheStableSort(s: seq<Entry>, other: seq<Entry>)
    requires SortedDesc(other)
    requires forall k :: WithScore(other, k) == WithScore(s, k)
    ensures other == SortDesc(s)
  {
    forall k ensures WithScore(SortDesc(s), k) == WithScore(other, k) {
      SortDescStable(s, k);
    }
    StableSortUnique(SortDesc(s), other);
  }

  /** How many entries of a best-first list score at least `k`: they form its leading run. */
  function CountAtLeast(s: seq<Entry>, k: int): (n: nat)
    ensures n <= |s|
  {
    if s == [] || s[0].score < k then 0 else 1 + CountAtLeast(s[1..], k)
  }

  lemma {:induction false} InsertAt(s: seq<Entry>, e: Entry)
    requires SortedDesc(s)
    ensures Insert(s, e) == s[..CountAtLeast(s, e.score)] + [e] + s[CountAtLeast(s, e.score)..]
  {
    if s == [] {
    } else if s[0].score >= e.score {
      SortedTail(s);
      InsertAt(s[1..], e);
      var p := CountAtLeast(s[1..], e.score);
      assert CountAtLeast(s, e.score) == p + 1;
      assert Insert(s, e) == [s[0]] + Insert(s[1..], e);
      assert s[..p + 1] == [s[0]] + s[1..][..p];
      assert s[p + 1..] == s[1..][p..];
    } else {
      assert CountAtLeast(s, e.score) == 0;
      assert Insert(s, e) == [e] + s;
      assert s[..0] == [] && s[0..] == s;
    }
  }

  lemma {:induction false} SortDescSorted(s: seq<Entry>)
    requires SortedDesc(s)
    ensures SortDesc(s) == s
  {
    if s != [] {
      var init, last := s[..|s| - 1], s[|s| - 1];
      assert SortedDesc(init);
      SortDescSorted(init);
      assert SortDesc(s) == Insert(init, last);
      InsertAt(init, last);
      CountAllAtLeast(init, last.score);
      assert init[..|init|] == init && init[|init|..] == [];
      assert s == init + [last];
    }
  }

  lemma {:induction false} CountAllAtLeast(s: seq<Entry>, k: int)
    requires forall i :: 0 <= i < |s| ==> s[i].score >= k
    ensures CountAtLeast(s, k) == |s|
  {
    if s != [] {
      assert forall i :: 0 <= i < |s[1..]| ==> s[1..][i] == s[i + 1];
      CountAllAtLeast(s[1..], k);
    }
  }

  /**
   * On a stored (best-first) list the update is explicit: the new entry goes right after every
   * entry scoring at least as much, and the list is then cut to ten. So the new entry makes the
   * table exactly when fewer than ten stored entries score at least as much.
   */
  lemma RecordIntoSorted(list: seq<Entry>, entry: Entry)
    requires SortedDesc(list)
    ensures var p := CountAtLeast(list, entry.score);
      && Record(list, entry) == Take(list[..p] + [entry] + list[p..])
      && (p < Capacity ==> Record(list, entry)[p] == entry)
      && Record(list, entry)[..Min(p, Capacity)] == list[..Min(p, Capacity)]
  {
    var p := CountAtLeast(list, entry.score);
    var inserted := list[..p] + [entry] + list[p..];
    assert SortDesc(list + [entry]) == inserted by {
      var appended := list + [entry];
      assert appended[..|appended| - 1] == list && appended[|appended| - 1] == entry;
      assert SortDesc(appended) == Insert(SortDesc(list), entry);
      SortDescSorted(list);
      InsertAt(list, entry);
    }
    var r := Take(inserted);
    assert Record(list, entry) == r;
    var m := Min(p, Capacity);
    assert r[..m] == inserted[..m];
    assert inserted[..m] == list[..m];
    assert p < Capacity ==> r[p] == inserted[p] == entry;
  }

  /**
   * The browser storage item holding the whole table (`localStorage`), `None` while the key is
   * absent.
   */
  class Store {
    var stored: Option<Board>

    constructor ()
      ensures stored == None
    {
      stored := None;
    }

    /** The list a tier's leaderboard tab shows. */
    function Query(tier: Difficulty): (list: seq<Entry>)
      reads this
      ensures stored.None? ==> list == []
      ensures stored.Some? ==> list == stored.value.Get(tier)
    {
      Load(stored).Get(tier)
    }

    /** Records a finished round's entry in its tier and writes the table back. */
    method Save(tier: Difficulty, entry: Entry)
      modifies this
      ensures stored == Some(old(Load(stored)).Set(tier, Record(old(Query(tier)), entry)))
      ensures |Query(tier)| <= Capacity && SortedDesc(Query(tier))
      ensures forall other :: other != tier ==> Query(other) == old(Query(other))
      ensures old(WellFormed(Load(stored))) ==> WellFormed(Load(stored))
    {
      var board := Load(stored);
      var list := board.Get(tier);
      list := list + [entry];
      list := SortDesc(list);
      list := Take(list);
      board := board.Set(tier, list);
      stored := Some(board);
    }

    /** Removes the storage key when the user confirms; every tier then reads as empty. */
    method Clear(confirmed: bool)
      modifies this
      ensures stored == if confirmed then None else old(stored)
      ensures confirmed ==> forall tier :: Query(tier) == []
    {
      if confirmed {
        stored := None;
      }
    }
  }
}
