/**
 * The order in which the scheduler lists appointments: Python's stable
 * `list.sort(key=lambda x: x['datetime'])`, that is, ascending by the raw
 * datetime string, with equal strings left in their original order.
 */
module Ordering {
  import opened Records
  import opened IsoText
  import opened Filtering

  ghost predicate SortedByDatetime(s: seq<Appointment>)
  {
    forall i, j :: 0 <= i < j < |s| ==> StrLe(s[i].datetime, s[j].datetime)
  }

  /** Selects the appointments whose datetime string is exactly `key`. */
  function HasDatetime(key: string): Appointment -> bool
  {
    (a: Appointment) => a.datetime == key
  }

  /** Puts `x` in front of the first element whose key is not below its own. */
  function Insert(x: Appointment, r: seq<Appointment>): (q: seq<Appointment>)
    ensures multiset(q) == multiset(r) + multiset{x}
    ensures |q| == |r| + 1
  {
    if r == [] || StrLe(x.datetime, r[0].datetime) then [x] + r
    else
      assert r == [r[0]] + r[1..];
      [r[0]] + Insert(x, r[1..])
  }

  /** Insertion sort; each element goes in front of the later ones with an equal key. */
  function SortByDatetime(s: seq<Appointment>): (r: seq<Appointment>)
    ensures multiset(r) == multiset(s)
    ensures |r| == |s|
  {
    if s == [] then []
    else
      assert s == [s[0]] + s[1..];
      Insert(s[0], SortByDatetime(s[1..]))
  }

  lemma {:induction false} InsertKeepsSorted(x: Appointment, r: seq<Appointment>)
    requires SortedByDatetime(r)
    ensures SortedByDatetime(Insert(x, r))
  {
    if r == [] || StrLe(x.datetime, r[0].datetime) {
      var q := [x] + r;
      forall i, j | 0 <= i < j < |q|
        ensures StrLe(q[i].datetime, q[j].datetime)
      {
        if i == 0 {
          if j > 1 { StrLeTransitive(x.datetime, r[0].datetime, r[j - 1].datetime); }
        } else {
          assert q[i] == r[i - 1] && q[j] == r[j - 1];
        }
      }
    } else {
      var tail := r[1..];
      assert SortedByDatetime(tail) by {
        forall i, j | 0 <= i < j < |tail|
          ensures StrLe(tail[i].datetime, tail[j].datetime)
        {
          assert tail[i] == r[i + 1] && tail[j] == r[j + 1];
        }
      }
      InsertKeepsSorted(x, tail);
      StrLeTotal(x.datetime, r[0].datetime);
      var ins := Insert(x, tail);
      var q := [r[0]] + ins;
      forall i, j | 0 <= i < j < |q|
        ensures StrLe(q[i].datetime, q[j].datetime)
      {
        if i == 0 {
          var y := q[j];
          assert y == ins[j - 1];
          assert y in multiset(ins);
          if y == x {
          } else {
            assert y in multiset(tail);
            var k :| 0 <= k < |tail| && tail[k] == y;
            assert r[k + 1] == y;
          }
        } else {
          assert q[i] == ins[i - 1] && q[j] == ins[j - 1];
        }
      }
    }
  }

  /** The sorted listing is ascending by datetime string. */
  lemma {:induction false} SortIsSorted(s: seq<Appointment>)
    ensures SortedByDatetime(SortByDatetime(s))
  {
    if s != [] {
      SortIsSorted(s[1..]);
      InsertKeepsSorted(s[0], SortByDatetime(s[1..]));
    }
  }

  /** Inserting keeps, among records with one and the same key, `x` ahead of the rest. */
  lemma {:induction false} InsertKeepsKeyOrder(x: Appointment, r: seq<Appointment>, key: string)
    ensures Filter(Insert(x, r), HasDatetime(key)) == Filter([x] + r, HasDatetime(key))
  {
    var keep := HasDatetime(key);
    if r != [] && !StrLe(x.datetime, r[0].datetime) {
      var tail := r[1..];
      assert r == [r[0]] + tail;
      InsertKeepsKeyOrder(x, tail, key);
      StrLeReflexive(x.datetime);
      FilterCons(r[0], Insert(x, tail), keep);
      FilterCons(x, tail, keep);
      FilterCons(x, r, keep);
      FilterCons(r[0], tail, keep);
    }
  }

  /** The sort is stable: among records with equal datetime strings the input order survives. */
  lemma {:induction false} SortIsStable(s: seq<Appointment>, key: string)
    ensures Filter(SortByDatetime(s), HasDatetime(key)) == Filter(s, HasDatetime(key))
  {
    if s != [] {
      var keep := HasDatetime(key);
      SortIsStable(s[1..], key);
      InsertKeepsKeyOrder(s[0], SortByDatetime(s[1..]), key);
      FilterCons(s[0], SortByDatetime(s[1..]), keep);
      FilterCons(s[0], s[1..], keep);
      assert s == [s[0]] + s[1..];
    }
  }

  /** The tail of a sorted sequence is sorted. */
  lemma SortedTail(s: seq<Appointment>)
    requires SortedByDatetime(s) && s != []
    ensures SortedByDatetime(s[1..])
  {
    var t := s[1..];
    forall i, j | 0 <= i < j < |t|
      ensures StrLe(t[i].datetime, t[j].datetime)
    {
      assert t[i] == s[i + 1] && t[j] == s[j + 1];
    }
  }

  /** In a sorted sequence the head's key is not above the key of any element. */
  lemma SortedHeadIsLeast(s: seq<Appointment>, y: Appointment)
    requires SortedByDatetime(s) && y in s
    ensures StrLe(s[0].datetime, y.datetime)
  {
    var j :| 0 <= j < |s| && s[j] == y;
    if j == 0 { StrLeReflexive(y.datetime); }
  }

  /** Records agree key by key, in order. */
  ghost predicate SameKeyOrder(r1: seq<Appointment>, r2: seq<Appointment>)
  {
    forall key :: Filter(r1, HasDatetime(key)) == Filter(r2, HasDatetime(key))
  }

  /** Sorted sequences that agree key by key start with the same record. */
  lemma SameHeads(r1: seq<Appointment>, r2: seq<Appointment>)
    requires SortedByDatetime(r1) && SortedByDatetime(r2) && r1 != [] && r2 != []
    requires Filter(r1, HasDatetime(r1[0].datetime)) == Filter(r2, HasDatetime(r1[0].datetime))
    requires Filter(r1, HasDatetime(r2[0].datetime)) == Filter(r2, HasDatetime(r2[0].datetime))
    ensures r1[0] == r2[0]
  {
    var a, b := r1[0], r2[0];
    var ka, kb := HasDatetime(a.datetime), HasDatetime(b.datetime);
    assert a in r2 by {
      assert a in Filter(r1, ka);
    }
    assert b in r1 by {
      assert b in Filter(r2, kb);
    }
    SortedHeadIsLeast(r2, a);
    SortedHeadIsLeast(r1, b);
    StrLeAntisymmetric(a.datetime, b.datetime);
    HeadOfKeyFilter(r1, ka);
    HeadOfKeyFilter(r2, ka);
  }

  /** A sequence whose head passes `keep` has that head first in its filter. */
  lemma HeadOfKeyFilter(r: seq<Appointment>, keep: Appointment -> bool)
    requires r != [] && keep(r[0])
    ensures Filter(r, keep) != [] && Filter(r, keep)[0] == r[0]
  {
    assert r == [r[0]] + r[1..];
    FilterCons(r[0], r[1..], keep);
  }

  /** Agreement on one key survives dropping a common head. */
  lemma SameTail(x: Appointment, t1: seq<Appointment>, t2: seq<Appointment>, key: string)
    requires Filter([x] + t1, HasDatetime(key)) == Filter([x] + t2, HasDatetime(key))
    ensures Filter(t1, HasDatetime(key)) == Filter(t2, HasDatetime(key))
  {
    FilterCons(x, t1, HasDatetime(key));
    FilterCons(x, t2, HasDatetime(key));
    var c := if x.datetime == key then [x] else [];
    assert (c + Filter(t1, HasDatetime(key)))[|c|..] == Filter(t1, HasDatetime(key));
    assert (c + Filter(t2, HasDatetime(key)))[|c|..] == Filter(t2, HasDatetime(key));
  }

  /** Agreement on every key survives dropping a common head. */
  lemma SameTails(r1: seq<Appointment>, r2: seq<Appointment>)
    requires r1 != [] && r2 != [] && r1[0] == r2[0]
    requires SameKeyOrder(r1, r2)
    ensures SameKeyOrder(r1[1..], r2[1..])
  {
    var x, t1, t2 := r1[0], r1[1..], r2[1..];
    assert r1 == [x] + t1 && r2 == [x] + t2;
    forall key
      ensures Filter(t1, HasDatetime(key)) == Filter(t2, HasDatetime(key))
    {
      SameTail(x, t1, t2, key);
    }
  }

  /**
   * Two sequences sorted by datetime whose records agree key by key, in
   * order, are equal: a stable sort has only one possible result.
   */
  lemma {:induction false} StableSortIsUnique(r1: seq<Appointment>, r2: seq<Appointment>)
    requires SortedByDatetime(r1) && SortedByDatetime(r2)
    requires SameKeyOrder(r1, r2)
    ensures r1 == r2
    decreases |r1| + |r2|
  {
    if r1 == [] || r2 == [] {
      assert r1 != [] ==> r1[0] in Filter(r1, HasDatetime(r1[0].datetime));
      assert r2 != [] ==> r2[0] in Filter(r2, HasDatetime(r2[0].datetime));
    } else {
      SameHeads(r1, r2);
      SameTails(r1, r2);
      SortedTail(r1);
      SortedTail(r2);
      StableSortIsUnique(r1[1..], r2[1..]);
      assert r1 == [r1[0]] + r1[1..] && r2 == [r2[0]] + r2[1..];
    }
  }

  /** Any listing sorted by datetime that keeps equal keys in input order is exactly `SortByDatetime`. */
  lemma SortByDatetimeIsTheStableSort(s: seq<Appointment>, r: seq<Appointment>)
    requires SortedByDatetime(r) && SameKeyOrder(r, s)
    ensures r == SortByDatetime(s)
  {
    SortIsSorted(s);
    forall key
      ensures Filter(r, HasDatetime(key)) == Filter(SortByDatetime(s), HasDatetime(key))
    {
      SortIsStable(s, key);
    }
    StableSortIsUnique(r, SortByDatetime(s));
  }

  /** Inserting `x` keeps a pairwise property when `x` is compatible with every record either way round. */
  lemma {:induction false} InsertKeepsPairwise(x: Appointment, r: seq<Appointment>, ok: (Appointment, Appointment) -> bool)
    requires Pairwise(r, ok)
    requires forall y :: y in r ==> ok(x, y) && ok(y, x)
    ensures Pairwise(Insert(x, r), ok)
  {
    var q := Insert(x, r);
    if r == [] || StrLe(x.datetime, r[0].datetime) {
      forall i, j | 0 <= i < j < |q|
        ensures ok(q[i], q[j])
      {
        if i == 0 {
          assert q[j] == r[j - 1];
        } else {
          assert q[i] == r[i - 1] && q[j] == r[j - 1];
        }
      }
    } else {
      var tail := r[1..];
      assert Pairwise(tail, ok) by {
        forall i, j | 0 <= i < j < |tail|
          ensures ok(tail[i], tail[j])
        {
          assert tail[i] == r[i + 1] && tail[j] == r[j + 1];
        }
      }
      assert forall y :: y in tail ==> y in r;
      InsertKeepsPairwise(x, tail, ok);
      var ins := Insert(x, tail);
      assert q == [r[0]] + ins;
      forall i, j | 0 <= i < j < |q|
        ensures ok(q[i], q[j])
      {
        if i == 0 {
          var y := ins[j - 1];
          assert y in multiset(ins);
          if y != x {
            assert y in multiset(tail);
            var k :| 0 <= k < |tail| && tail[k] == y;
            assert r[k + 1] == y;
          }
        } else {
          assert q[i] == ins[i - 1] && q[j] == ins[j - 1];
        }
      }
    }
  }

  /** Sorting keeps every symmetric pairwise property of the records. */
  lemma {:induction false} SortKeepsPairwise(s: seq<Appointment>, ok: (Appointment, Appointment) -> bool)
    requires Pairwise(s, ok)
    requires forall a, b :: ok(a, b) == ok(b, a)
    ensures Pairwise(SortByDatetime(s), ok)
  {
    if s != [] {
      var tail := s[1..];
      assert Pairwise(tail, ok) by {
        forall i, j | 0 <= i < j < |tail|
          ensures ok(tail[i], tail[j])
        {
          assert tail[i] == s[i + 1] && tail[j] == s[j + 1];
        }
      }
      SortKeepsPairwise(tail, ok);
      var sorted := SortByDatetime(tail);
      forall y | y in sorted
        ensures ok(s[0], y) && ok(y, s[0])
      {
        assert y in multiset(sorted);
        var k :| 0 <= k < |tail| && tail[k] == y;
        assert s[k + 1] == y;
      }
      InsertKeepsPairwise(s[0], sorted, ok);
    }
  }
}
