/**
 Cross-fifo selection (index.js, `_callagents`): when an agent frees up, the
 manager copies the agent's fifo set, sorts it oldest first and asks the head
 of the sorted copy to call the agent.
 */
module FifoSelection {

  /** One fifo as the manager sees it through an agent's membership set: its
      identity and its current `age`, the wait of its oldest call. */
  datatype Fifo = Fifo(domain: string, name: string, age: int)

  /** Oldest first: ages never increase along the sequence. */
  predicate OldestFirst(s: seq<Fifo>)
  {
    forall i, j :: 0 <= i < j < |s| ==> s[j].age <= s[i].age
  }

  /** Puts `f` in front of the first element that is not older than it, so
      that `f` stays ahead of the equally old elements that followed it. */
  function InsertByAge(f: Fifo, t: seq<Fifo>): (r: seq<Fifo>)
    ensures |r| == |t| + 1
    ensures multiset(r) == multiset(t) + multiset{f}
  {
    if t == [] || t[0].age <= f.age then [f] + t
    else
      assert t == [t[0]] + t[1..];
      [t[0]] + InsertByAge(f, t[1..])
  }

  /** The platform's stable sort under the comparator `b.age - a.age`: the
      result is oldest first, equally old fifos keep their set order. */
  function SortByAge(s: seq<Fifo>): (r: seq<Fifo>)
    ensures |r| == |s|
    ensures multiset(r) == multiset(s)
  {
    if s == [] then []
    else
      assert s == [s[0]] + s[1..];
      InsertByAge(s[0], SortByAge(s[1..]))
  }

  /** Reference definition of the fifo that wins: the first, in set order,
      of those whose age is greatest. */
  function OldestIndex(s: seq<Fifo>): (i: nat)
    requires |s| > 0
    ensures i < |s|
    ensures forall j :: 0 <= j < |s| ==> s[j].age <= s[i].age
    ensures forall j :: 0 <= j < i ==> s[j].age < s[i].age
  {
    if |s| == 1 then 0
    else
      var k := OldestIndex(s[1..]);
      if s[1 + k].age <= s[0].age then 0 else 1 + k
  }

  /** Every element of `s` is at most `bound` old. */
  predicate NoOlderThan(s: seq<Fifo>, bound: int)
  {
    forall x :: x in s ==> x.age <= bound
  }

  lemma ConsKeepsOldestFirst(x: Fifo, t: seq<Fifo>)
    requires OldestFirst(t) && NoOlderThan(t, x.age)
    ensures OldestFirst([x] + t)
  {
    var r := [x] + t;
    forall i, j | 0 <= i < j < |r|
      ensures r[j].age <= r[i].age
    {
      assert r[j] == t[j - 1];
      if i > 0 {
        assert r[i] == t[i - 1];
      }
    }
  }

  lemma {:induction false} InsertNoOlderThan(f: Fifo, t: seq<Fifo>, bound: int)
    requires NoOlderThan(t, bound) && f.age <= bound
    ensures NoOlderThan(InsertByAge(f, t), bound)
  {
    var r := InsertByAge(f, t);
    forall x | x in r
      ensures x.age <= bound
    {
      assert x in multiset(r);
      if x != f {
        assert x in multiset(t);
      }
    }
  }

  lemma {:induction false} InsertKeepsOldestFirst(f: Fifo, t: seq<Fifo>)
    requires OldestFirst(t)
    ensures OldestFirst(InsertByAge(f, t))
  {
    if t == [] || t[0].age <= f.age {
      forall x | x in t
        ensures x.age <= f.age
      {
        var j :| 0 <= j < |t| && t[j] == x;
        assert t[j].age <= t[0].age;
      }
      ConsKeepsOldestFirst(f, t);
    } else {
      assert t == [t[0]] + t[1..];
      assert OldestFirst(t[1..]) by {
        forall i, j | 0 <= i < j < |t[1..]|
          ensures t[1..][j].age <= t[1..][i].age
        {
          assert t[1..][j] == t[j + 1] && t[1..][i] == t[i + 1];
        }
      }
      InsertKeepsOldestFirst(f, t[1..]);
      forall x | x in t[1..]
        ensures x.age <= t[0].age
      {
        var j :| 0 <= j < |t[1..]| && t[1..][j] == x;
        assert t[j + 1] == x;
      }
      InsertNoOlderThan(f, t[1..], t[0].age);
      ConsKeepsOldestFirst(t[0], InsertByAge(f, t[1..]));
    }
  }

  lemma {:induction false} SortByAgeIsOldestFirst(s: seq<Fifo>)
    ensures OldestFirst(SortByAge(s))
  {
    if s != [] {
      SortByAgeIsOldestFirst(s[1..]);
      InsertKeepsOldestFirst(s[0], SortByAge(s[1..]));
    }
  }

  /** The head of the sorted copy is the reference winner: of greatest age,
      and first in set order among the equally old. */
  lemma {:induction false} SortByAgeHead(s: seq<Fifo>)
    requires |s| > 0
    ensures |SortByAge(s)| > 0
    ensures SortByAge(s)[0] == s[OldestIndex(s)]
  {
    if |s| > 1 {
      SortByAgeHead(s[1..]);
    }
  }
}
