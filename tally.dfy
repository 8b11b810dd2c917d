/** The counting dictionaries of the dashboard and the reports:
    `d[k] = (d[k] || 0) + q` inside a `forEach`, read back with
    `Object.entries(d)`, then `.sort((a, b) => b.qty - a.qty).slice(0, 5)`.
    A JavaScript object lists its string keys in insertion order, so the
    dictionary is a sequence of entries in that order. */
module Tally {
  import opened Seqs

  /** One `[key, value]` pair, as `{ name, qty }`. */
  datatype Entry = Entry(name: string, qty: int)

  function Names(t: seq<Entry>): (r: seq<string>)
    ensures |r| == |t| && forall i :: 0 <= i < |t| ==> r[i] == t[i].name
  {
    seq(|t|, i requires 0 <= i < |t| => t[i].name)
  }

  function EntryQty(e: Entry): int { e.qty }

  /** An entry's quantity when it carries the name, zero otherwise. */
  function QtyIf(name: string): Entry -> int {
    (e: Entry) => if e.name == name then e.qty else 0
  }

  /** The total quantity the pairs give a name. */
  function QtyOf(ps: seq<Entry>, name: string): int {
    SumOf(ps, QtyIf(name))
  }

  /** `d[name] = (d[name] || 0) + q`: an existing key keeps its place, a new
      one goes last. */
  function Bump(t: seq<Entry>, name: string, q: int): seq<Entry> {
    if name in Names(t) then
      seq(|t|, i requires 0 <= i < |t| => if t[i].name == name then Entry(name, t[i].qty + q) else t[i])
    else t + [Entry(name, q)]
  }

  /** The dictionary after bumping every pair, in order, from `{}`. */
  function Count(ps: seq<Entry>): seq<Entry> {
    if ps == [] then [] else Bump(Count(ps[..|ps| - 1]), ps[|ps| - 1].name, ps[|ps| - 1].qty)
  }

  lemma CountSnoc(ps: seq<Entry>, e: Entry)
    ensures Count(ps + [e]) == Bump(Count(ps), e.name, e.qty)
  {
    assert (ps + [e])[..|ps|] == ps;
  }

  lemma {:induction false} QtyOfAbsent(ps: seq<Entry>, name: string)
    requires name !in Names(ps)
    ensures QtyOf(ps, name) == 0
  {
    if ps != [] {
      assert Names(ps[1..]) == Names(ps)[1..];
      QtyOfAbsent(ps[1..], name);
    }
  }

  /** Bumping a present name updates that entry in place. */
  lemma BumpPresent(t: seq<Entry>, name: string, q: int)
    requires name in Names(t)
    ensures |Bump(t, name, q)| == |t| && Names(Bump(t, name, q)) == Names(t)
    ensures forall i :: 0 <= i < |t| ==>
              Bump(t, name, q)[i].qty == t[i].qty + (if t[i].name == name then q else 0)
  {
  }

  lemma QtyOfSnoc(init: seq<Entry>, p: Entry, name: string)
    ensures QtyOf(init + [p], name) == QtyOf(init, name) + (if p.name == name then p.qty else 0)
  {
    SumOfAppend(init, [p], QtyIf(name));
  }

  /** The dictionary holds each name of the pairs once, in the order of
      first occurrence. */
  lemma {:induction false} CountNames(ps: seq<Entry>)
    ensures Names(Count(ps)) == Distinct(Names(ps))
    decreases |ps|
  {
    if ps != [] {
      var init, p := ps[..|ps| - 1], ps[|ps| - 1];
      CountNames(init);
      var c := Count(init);
      assert Names(ps)[..|ps| - 1] == Names(init);
      if p.name in Names(c) {
        BumpPresent(c, p.name, p.qty);
      } else {
        assert Names(Bump(c, p.name, p.qty)) == Names(c) + [p.name];
      }
    }
  }

  /** Each entry of the dictionary holds the sum of its name's quantities. */
  lemma {:induction false} CountQty(ps: seq<Entry>)
    ensures forall i :: 0 <= i < |Count(ps)| ==> Count(ps)[i].qty == QtyOf(ps, Count(ps)[i].name)
    decreases |ps|
  {
    if ps != [] {
      var init, p := ps[..|ps| - 1], ps[|ps| - 1];
      assert ps == init + [p];
      CountQty(init);
      var c := Count(init);
      var r := Count(ps);
      forall i | 0 <= i < |r|
        ensures r[i].qty == QtyOf(ps, r[i].name)
      {
        QtyOfSnoc(init, p, r[i].name);
        if p.name in Names(c) {
          BumpPresent(c, p.name, p.qty);
          assert Names(r)[i] == Names(c)[i];
        } else if i == |c| {
          CountNames(init);
          assert p.name !in Names(init);
          QtyOfAbsent(init, p.name);
        } else {
          assert r[i] == c[i];
          if c[i].name == p.name {
            assert Names(c)[i] == p.name;
          }
        }
      }
    }
  }

  /** The dictionary holds each name of the pairs once, in the order of
      first occurrence, with the sum of that name's quantities. */
  lemma CountSpec(ps: seq<Entry>)
    ensures Names(Count(ps)) == Distinct(Names(ps))
    ensures forall i :: 0 <= i < |Count(ps)| ==> Count(ps)[i].qty == QtyOf(ps, Count(ps)[i].name)
  {
    CountNames(ps);
    CountQty(ps);
  }

  /** A dictionary built by `Count` has each name once. */
  lemma CountUnique(ps: seq<Entry>)
    ensures NoDuplicates(Names(Count(ps)))
  {
    CountSpec(ps);
  }

  /** Counting moves quantities between keys but loses none: the entries'
      quantities sum to the pairs' quantities. */
  lemma {:induction false} CountKeepsSum(ps: seq<Entry>)
    ensures SumOf(Count(ps), EntryQty) == SumOf(ps, EntryQty)
    decreases |ps|
  {
    if ps != [] {
      var init, p := ps[..|ps| - 1], ps[|ps| - 1];
      assert ps == init + [p];
      CountKeepsSum(init);
      CountUnique(init);
      var c := Count(init);
      var r := Bump(c, p.name, p.qty);
      SumOfAppend(init, [p], EntryQty);
      if p.name in Names(c) {
        var k :| 0 <= k < |c| && Names(c)[k] == p.name;
        assert forall i :: 0 <= i < |c| && i != k ==> Names(c)[i] != Names(c)[k];
        SumOfUpdate(c, r, EntryQty, k);
      } else {
        SumOfAppend(c, [Entry(p.name, p.qty)], EntryQty);
      }
    }
  }

  /** The pairs `(key(x), val(x))` of a `forEach` over xs. */
  function PairsOf<T>(xs: seq<T>, key: T -> string, val: T -> int): (r: seq<Entry>)
    ensures |r| == |xs|
  {
    seq(|xs|, i requires 0 <= i < |xs| => Entry(key(xs[i]), val(xs[i])))
  }

  /** The term `val(x)` when `key(x)` is the name, zero otherwise. */
  function Selected<T>(key: T -> string, val: T -> int, name: string): T -> int {
    (x: T) => if key(x) == name then val(x) else 0
  }

  lemma PairsOfSnoc<T>(xs: seq<T>, x: T, key: T -> string, val: T -> int)
    ensures PairsOf(xs + [x], key, val) == PairsOf(xs, key, val) + [Entry(key(x), val(x))]
  {
  }

  lemma PairsOfAppend<T>(xs: seq<T>, ys: seq<T>, key: T -> string, val: T -> int)
    ensures PairsOf(xs + ys, key, val) == PairsOf(xs, key, val) + PairsOf(ys, key, val)
  {
  }

  /** What the pairs give a name is the sum of val over the elements with
      that key; all names together get the sum of val. */
  lemma {:induction false} PairsOfQty<T>(xs: seq<T>, key: T -> string, val: T -> int, name: string)
    ensures QtyOf(PairsOf(xs, key, val), name) == SumOf(xs, Selected(key, val, name))
    ensures SumOf(PairsOf(xs, key, val), EntryQty) == SumOf(xs, val)
  {
    if xs != [] {
      assert PairsOf(xs, key, val)[1..] == PairsOf(xs[1..], key, val);
      PairsOfQty(xs[1..], key, val, name);
    }
  }

  lemma PairsOfNames<T>(xs: seq<T>, key: T -> string, val: T -> int)
    ensures Names(PairsOf(xs, key, val)) == seq(|xs|, i requires 0 <= i < |xs| => key(xs[i]))
  {
  }

  // ---------------------------------------------------------------------
  // `.sort((a, b) => b.qty - a.qty)`: stable, by non-increasing quantity
  // ---------------------------------------------------------------------

  /** Insert e after every entry whose quantity is at least e's. */
  function InsertByQty(s: seq<Entry>, e: Entry): (r: seq<Entry>)
    ensures |r| == |s| + 1
  {
    if s == [] then [e]
    else if s[0].qty >= e.qty then [s[0]] + InsertByQty(s[1..], e)
    else [e] + s
  }

  /** Insertion sort in the original order, which makes it stable. */
  function SortByQty(t: seq<Entry>): (r: seq<Entry>)
    ensures |r| == |t|
  {
    if t == [] then [] else InsertByQty(SortByQty(t[..|t| - 1]), t[|t| - 1])
  }

  predicate NonIncreasing(s: seq<Entry>) {
    forall i, j :: 0 <= i < j < |s| ==> s[i].qty >= s[j].qty
  }

  /** Entries of quantity q, in order. */
  function WithQty(q: int): Entry -> bool {
    (e: Entry) => e.qty == q
  }

  lemma {:induction false} InsertSorted(s: seq<Entry>, e: Entry)
    requires NonIncreasing(s)
    ensures NonIncreasing(InsertByQty(s, e))
  {
    if s != [] && s[0].qty >= e.qty {
      var tail := InsertByQty(s[1..], e);
      InsertSorted(s[1..], e);
      InsertKeepsMembers(s[1..], e);
      var r := InsertByQty(s, e);
      forall i, j | 0 <= i < j < |r|
        ensures r[i].qty >= r[j].qty
      {
        if i == 0 {
          assert r[j] == tail[j - 1];
          assert r[j] in tail;
          if r[j] != e {
            var m :| 0 <= m < |s[1..]| && s[1..][m] == r[j];
            assert s[m + 1] == r[j];
          }
        } else {
          assert r[i] == tail[i - 1] && r[j] == tail[j - 1];
        }
      }
    }
  }

  lemma {:induction false} InsertPermutes(s: seq<Entry>, e: Entry)
    ensures multiset(InsertByQty(s, e)) == multiset(s) + multiset{e}
  {
    if s != [] && s[0].qty >= e.qty {
      InsertPermutes(s[1..], e);
      assert s == [s[0]] + s[1..];
    }
  }

  lemma {:induction false} InsertStable(s: seq<Entry>, e: Entry, q: int)
    requires NonIncreasing(s)
    ensures Filter(InsertByQty(s, e), WithQty(q)) == Filter(s, WithQty(q)) + (if e.qty == q then [e] else [])
  {
    var r := InsertByQty(s, e);
    if s == [] {
      assert r[1..] == [];
    } else if s[0].qty >= e.qty {
      InsertStable(s[1..], e, q);
      assert r == [s[0]] + InsertByQty(s[1..], e);
      assert s == [s[0]] + s[1..];
      FilterAppend([s[0]], InsertByQty(s[1..], e), WithQty(q));
      FilterAppend([s[0]], s[1..], WithQty(q));
    } else {
      FilterAppend([e], s, WithQty(q));
      if e.qty == q {
        FilterNone(s, WithQty(q));
      }
    }
  }

  lemma {:induction false} InsertKeepsMembers(s: seq<Entry>, e: Entry)
    ensures forall x :: x in InsertByQty(s, e) <==> x in s || x == e
  {
    if s != [] && s[0].qty >= e.qty {
      InsertKeepsMembers(s[1..], e);
      assert s == [s[0]] + s[1..];
    }
  }

  /** The sort is a permutation, by non-increasing quantity, and stable:
      the entries of each quantity keep their relative order. */
  lemma SortByQtySpec(t: seq<Entry>)
    ensures NonIncreasing(SortByQty(t))
    ensures multiset(SortByQty(t)) == multiset(t)
    ensures forall q :: Filter(SortByQty(t), WithQty(q)) == Filter(t, WithQty(q))
  {
    SortSorted(t);
    SortPermutes(t);
    forall q
      ensures Filter(SortByQty(t), WithQty(q)) == Filter(t, WithQty(q))
    {
      SortStable(t, q);
    }
  }

  lemma {:induction false} SortSorted(t: seq<Entry>)
    ensures NonIncreasing(SortByQty(t))
    decreases |t|
  {
    if t != [] {
      SortSorted(t[..|t| - 1]);
      InsertSorted(SortByQty(t[..|t| - 1]), t[|t| - 1]);
    }
  }

  lemma {:induction false} SortPermutes(t: seq<Entry>)
    ensures multiset(SortByQty(t)) == multiset(t)
    decreases |t|
  {
    if t != [] {
      var init, last := t[..|t| - 1], t[|t| - 1];
      assert t == init + [last];
      SortPermutes(init);
      InsertPermutes(SortByQty(init), last);
    }
  }

  lemma {:induction false} SortStable(t: seq<Entry>, q: int)
    ensures Filter(SortByQty(t), WithQty(q)) == Filter(t, WithQty(q))
    decreases |t|
  {
    if t != [] {
      var init, last := t[..|t| - 1], t[|t| - 1];
      assert t == init + [last];
      SortStable(init, q);
      SortSorted(init);
      InsertStable(SortByQty(init), last, q);
      FilterAppend(init, [last], WithQty(q));
    }
  }

  /** Names stay unique through the sort. */
  lemma {:induction false} SortKeepsUnique(t: seq<Entry>)
    requires NoDuplicates(Names(t))
    ensures NoDuplicates(Names(SortByQty(t)))
    decreases |t|
  {
    if t != [] {
      var init, last := t[..|t| - 1], t[|t| - 1];
      assert t == init + [last];
      assert NoDuplicates(Names(init)) by {
        assert forall i :: 0 <= i < |init| ==> Names(init)[i] == Names(t)[i];
      }
      SortKeepsUnique(init);
      SortByQtySpec(init);
      var s := SortByQty(init);
      forall x | x in s
        ensures x.name != last.name
      {
        assert x in multiset(init);
        var m :| 0 <= m < |init| && init[m] == x;
        assert Names(t)[m] == x.name && Names(t)[|t| - 1] == last.name;
      }
      InsertUnique(s, last);
    }
  }

  /** An entry whose name is new can go in front of uniquely named entries. */
  lemma UniqueCons(x: Entry, s: seq<Entry>)
    requires NoDuplicates(Names(s))
    requires forall y :: y in s ==> y.name != x.name
    ensures NoDuplicates(Names([x] + s))
  {
    var r := [x] + s;
    forall i, j | 0 <= i < j < |r|
      ensures Names(r)[i] != Names(r)[j]
    {
      if i == 0 {
        assert r[j] == s[j - 1];
      } else {
        assert Names(s)[i - 1] != Names(s)[j - 1];
      }
    }
  }

  /** The tail of uniquely named entries is uniquely named, with names other
      than the head's. */
  lemma UniqueTail(s: seq<Entry>)
    requires s != [] && NoDuplicates(Names(s))
    ensures NoDuplicates(Names(s[1..]))
    ensures forall y :: y in s[1..] ==> y.name != s[0].name
  {
    var tail := s[1..];
    assert forall i :: 0 <= i < |tail| ==> Names(tail)[i] == Names(s)[i + 1];
    forall y | y in tail
      ensures y.name != s[0].name
    {
      var m :| 0 <= m < |tail| && tail[m] == y;
      assert Names(s)[0] != Names(s)[m + 1];
    }
  }

  lemma {:induction false} InsertUnique(s: seq<Entry>, e: Entry)
    requires NoDuplicates(Names(s))
    requires forall x :: x in s ==> x.name != e.name
    ensures NoDuplicates(Names(InsertByQty(s, e)))
  {
    if s != [] && s[0].qty >= e.qty {
      var tail := s[1..];
      UniqueTail(s);
      assert forall x :: x in tail ==> x in s;
      InsertUnique(tail, e);
      InsertKeepsMembers(tail, e);
      assert s[0] in s;
      UniqueCons(s[0], InsertByQty(tail, e));
    } else if s != [] {
      UniqueCons(e, s);
    }
  }

  /** `.slice(0, 5)` of the sorted entries. */
  function TopFive(t: seq<Entry>): seq<Entry> {
    Take(SortByQty(t), 5)
  }

  /** The top five: at most five entries of the dictionary, names distinct,
      by non-increasing quantity, and every entry left out has at most the
      quantity of every entry shown. */
  lemma TopFiveSpec(t: seq<Entry>)
    requires NoDuplicates(Names(t))
    ensures |TopFive(t)| == Min(5, |t|)
    ensures NonIncreasing(TopFive(t)) && NoDuplicates(Names(TopFive(t)))
    ensures forall e :: e in TopFive(t) ==> e in t
    ensures forall e, k :: e in t && e !in TopFive(t) && 0 <= k < |TopFive(t)| ==> e.qty <= TopFive(t)[k].qty
  {
    var s := SortByQty(t);
    var r := TopFive(t);
    SortByQtySpec(t);
    SortKeepsUnique(t);
    PrefixShape(s, r);
    forall e | e in r
      ensures e in t
    {
      assert e in multiset(s);
    }
    forall e, k | e in t && e !in r && 0 <= k < |r|
      ensures e.qty <= r[k].qty
    {
      assert e in multiset(s);
      LeftOutBelow(s, r, e, k);
    }
  }

  lemma PrefixShape(s: seq<Entry>, r: seq<Entry>)
    requires NonIncreasing(s) && NoDuplicates(Names(s)) && r == Take(s, 5)
    ensures NonIncreasing(r) && NoDuplicates(Names(r))
    ensures forall e :: e in r ==> e in s
  {
    assert forall i :: 0 <= i < |r| ==> Names(r)[i] == Names(s)[i];
  }

  lemma LeftOutBelow(s: seq<Entry>, r: seq<Entry>, e: Entry, k: int)
    requires NonIncreasing(s) && r == Take(s, 5)
    requires e in s && e !in r && 0 <= k < |r|
    ensures e.qty <= r[k].qty
  {
    var m :| 0 <= m < |s| && s[m] == e;
  }
}
