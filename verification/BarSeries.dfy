/**
 A bounded bar series (backend/api/consumer.py:398-412): late and revised bars included, it is always the newest
 timestamps of the whole history, each with its last-written value.
 */
module BarSeries {
  import opened Prelude

  const MAX_BARS: nat := 6000

  datatype Bar = Bar(ts: int, open: real, high: real, low: real, close: real, volume: real)

  /** The timestamps of `s` that are newer than `t`. */
  function Newer(s: set<int>, t: int): set<int> {
    set u | u in s && u > t
  }

  /** The newest `n` of a set of timestamps: those with fewer than `n` newer ones. */
  function Newest(s: set<int>, n: nat): set<int> {
    set t | t in s && |Newer(s, t)| < n
  }

  function Restrict(m: map<int, Bar>, keys: set<int>): map<int, Bar> {
    map t | t in m && t in keys :: m[t]
  }

  /** The whole history, unbounded: the last bar written for each timestamp. */
  function History(bars: seq<Bar>): map<int, Bar>
    decreases |bars|
  {
    if bars == [] then map[] else History(bars[..|bars| - 1])[bars[|bars| - 1].ts := bars[|bars| - 1]]
  }

  /** The newest bars of a map. */
  function Trim(m: map<int, Bar>): map<int, Bar> {
    Restrict(m, Newest(m.Keys, MAX_BARS))
  }

  // ---- the series --------------------------------------------------------------------------------

  predicate IsOldest(s: set<int>, m: int) {
    m in s && forall k :: k in s ==> m <= k
  }

  lemma {:induction false} OldestExists(s: set<int>)
    requires s != {}
    ensures exists m :: IsOldest(s, m)
    decreases |s|
  {
    var x := AnyOf(s);
    var rest := s - {x};
    assert forall k :: k in s ==> k == x || k in rest;
    if rest == {} {
      assert IsOldest(s, x);
    } else {
      OldestExists(rest);
      var m :| IsOldest(rest, m);
      assert IsOldest(s, if x < m then x else m);
    }
  }

  function Oldest(s: set<int>): (m: int)
    requires s != {}
    ensures IsOldest(s, m)
  {
    OldestExists(s);
    var m :| IsOldest(s, m);
    m
  }

  /** `sorted(series)`: the timestamps in order. */
  function SortedInts(s: set<int>): (r: seq<int>)
    ensures |r| == |s|
    decreases |s|
  {
    if s == {} then [] else [Oldest(s)] + SortedInts(s - {Oldest(s)})
  }

  /** A loop over the sorted timestamps has deleted the first ones: what is left, and in what order it goes. */
  ghost predicate Dropping(put: map<int, Bar>, bars: map<int, Bar>, left: seq<int>) {
    && left == SortedInts(bars.Keys)
    && (forall t :: t in bars ==> t in put && bars[t] == put[t])
    && Newest(bars.Keys, MAX_BARS) == Newest(put.Keys, MAX_BARS)
  }

  lemma {:induction false} DropStep(put: map<int, Bar>, bars: map<int, Bar>, left: seq<int>)
    requires Dropping(put, bars, left) && |bars| > MAX_BARS
    ensures left != [] && left[0] in bars
    ensures |bars - {left[0]}| == |bars| - 1
    ensures Dropping(put, bars - {left[0]}, left[1..])
  {
    hide Newest;
    assert |bars.Keys| == |bars|;
    assert left[0] == Oldest(bars.Keys);
    assert (bars - {left[0]}).Keys == bars.Keys - {left[0]};
    assert |(bars - {left[0]}).Keys| == |bars - {left[0]}|;
    DropOldest(bars.Keys, left[0]);
  }

  lemma {:induction false} DropDone(put: map<int, Bar>, bars: map<int, Bar>, left: seq<int>)
    requires Dropping(put, bars, left) && |bars| <= MAX_BARS
    ensures bars == Trim(put)
  {
    assert |bars.Keys| == |bars|;
    FewAreAllNewest(bars.Keys);
    hide Newest;
    NewestIn(put.Keys);
    assert bars.Keys == Trim(put).Keys;
  }

  lemma {:induction false} DropStart(put: map<int, Bar>)
    ensures Dropping(put, put, SortedInts(put.Keys)) && |SortedInts(put.Keys)| == |put|
  {
    assert |put.Keys| == |put|;
  }

  class Series {
    var bars: map<int, Bar>

    constructor ()
      ensures bars == map[]
    {
      bars := map[];
    }

    method ApplyBar(b: Bar)
      modifies this
      ensures bars == Trim(old(bars)[b.ts := b])
    {
      hide *;
      bars := bars[b.ts := b];
      ghost var put := bars;
      DropStart(put);
      if |bars| > MAX_BARS {
        var order := SortedInts(bars.Keys);
        var excess := |bars| - MAX_BARS;
        var n := 0;
        while n < excess
          invariant n <= excess == |put| - MAX_BARS && |order| == |put|
          invariant |bars| == |put| - n
          invariant Dropping(put, bars, order[n..])
        {
          DropStep(put, bars, order[n..]);
          assert order[n..][0] == order[n] && order[n..][1..] == order[n + 1..];
          bars := bars - {order[n]};
          n := n + 1;
        }
        DropDone(put, bars, order[n..]);
      } else {
        DropDone(put, bars, SortedInts(put.Keys));
      }
    }
  }

  // ---- ranks -------------------------------------------------------------------------------------

  lemma {:induction false} SubsetCount(a: set<int>, b: set<int>)
    requires a <= b
    ensures |a| <= |b|
  {
    if a != b {
      assert b == a + (b - a);
      assert |b| == |a| + |b - a|;
    }
  }

  /** In a set of no more than `MAX_BARS`, every timestamp is among the newest. */
  lemma {:induction false} FewAreAllNewest(s: set<int>)
    ensures |s| <= MAX_BARS ==> Newest(s, MAX_BARS) == s
  {
    if |s| <= MAX_BARS {
      forall t | t in s
        ensures |Newer(s, t)| < MAX_BARS
      {
        assert t !in Newer(s, t);
        SubsetCount(Newer(s, t), s - {t});
      }
    }
  }

  /** Dropping the oldest of too many timestamps leaves the newest ones the newest. */
  lemma {:induction false} DropOldest(s: set<int>, oldest: int)
    requires IsOldest(s, oldest) && |s| > MAX_BARS
    ensures Newest(s - {oldest}, MAX_BARS) == Newest(s, MAX_BARS)
  {
    assert Newer(s, oldest) == s - {oldest};
    forall t | t in s - {oldest}
      ensures Newer(s - {oldest}, t) == Newer(s, t)
    {
    }
  }

  /** There are exactly `MAX_BARS` newest ones, when there are that many at all. */
  lemma {:induction false} NewestCount(s: set<int>)
    requires |s| >= MAX_BARS
    ensures |Newest(s, MAX_BARS)| == MAX_BARS
    decreases |s|
  {
    if |s| == MAX_BARS {
      FewAreAllNewest(s);
    } else {
      var m := Oldest(s);
      DropOldest(s, m);
      NewestCount(s - {m});
    }
  }

  /** A timestamp among the newest is newer than one that is not. */
  lemma {:induction false} NewestIsUpward(s: set<int>, a: int, g: int)
    requires a in Newest(s, MAX_BARS) && g in s && g !in Newest(s, MAX_BARS)
    ensures a > g
  {
    if a <= g {
      SubsetCount(Newer(s, g), Newer(s, a));
    }
  }

  /** Forgetting everything but the newest does not change which are the newest once one more is in. */
  lemma {:induction false} TrimmedThenMore(s: set<int>, t: int)
    ensures Newest(Newest(s, MAX_BARS) + {t}, MAX_BARS) == Newest(s + {t}, MAX_BARS)
  {
    var a := Newest(s, MAX_BARS);
    forall x
      ensures x in Newest(a + {t}, MAX_BARS) <==> x in Newest(s + {t}, MAX_BARS)
    {
      RankAgrees(s, t, x);
    }
  }

  lemma {:induction false} RankAgrees(s: set<int>, t: int, x: int)
    ensures x in Newest(Newest(s, MAX_BARS) + {t}, MAX_BARS) <==> x in Newest(s + {t}, MAX_BARS)
  {
    var a := Newest(s, MAX_BARS);
    SubsetCount(Newer(a + {t}, x), Newer(s + {t}, x));
    if x in s + {t} && x !in a + {t} {
      SubsetCount(Newer(s, x), Newer(s + {t}, x));
    } else if x in a + {t} && !(Newer(s, x) <= a) {
      var g :| g in Newer(s, x) && g !in a;
      ManyAbove(s, g);
      SubsetCount(Newer(a, g), Newer(a + {t}, x));
    } else if x in a + {t} {
      assert Newer(a + {t}, x) == Newer(s + {t}, x);
    }
  }

  /** Above a timestamp that is not among the newest lie all the newest. */
  lemma {:induction false} ManyAbove(s: set<int>, g: int)
    requires g in s && g !in Newest(s, MAX_BARS)
    ensures |Newer(Newest(s, MAX_BARS), g)| >= MAX_BARS
  {
    var a := Newest(s, MAX_BARS);
    SubsetCount(Newer(s, g), s);
    NewestCount(s);
    forall u | u in a
      ensures u > g
    {
      NewestIsUpward(s, u, g);
    }
    assert Newer(a, g) == a;
  }

  // ---- the refinement ----------------------------------------------------------------------------

  /** The series after a sequence of bars. */
  function Held(bars: seq<Bar>): map<int, Bar>
    decreases |bars|
  {
    if bars == [] then map[] else Trim(Held(bars[..|bars| - 1])[bars[|bars| - 1].ts := bars[|bars| - 1]])
  }

  /**
   After any sequence of bars, in any order and with any revisions, what is held is the newest of the whole history:
   the same timestamps and, for each, the last bar written.
   */
  lemma {:induction false} HeldIsNewestOfHistory(bars: seq<Bar>)
    ensures Held(bars) == Trim(History(bars))
    decreases |bars|
  {
    if bars == [] {
      assert Trim(map[]) == map[];
    } else {
      var n := |bars| - 1;
      HeldIsNewestOfHistory(bars[..n]);
      TrimAbsorbs(History(bars[..n]), bars[n]);
    }
  }

  lemma {:induction false} TrimAbsorbs(history: map<int, Bar>, b: Bar)
    ensures Trim(Trim(history)[b.ts := b]) == Trim(history[b.ts := b])
  {
    hide Newest;
    var h', t' := history[b.ts := b], Trim(history)[b.ts := b];
    assert Trim(history).Keys == Newest(history.Keys, MAX_BARS) by { NewestIn(history.Keys); }
    assert t'.Keys == Newest(history.Keys, MAX_BARS) + {b.ts};
    assert h'.Keys == history.Keys + {b.ts};
    TrimmedThenMore(history.Keys, b.ts);
    NewestIn(t'.Keys);
    NewestIn(h'.Keys);
    assert Trim(t').Keys == Trim(h').Keys;
  }

  lemma {:induction false} NewestIn(s: set<int>)
    ensures Newest(s, MAX_BARS) <= s
  {
  }

  /** No more than the maximum is ever held. */
  lemma {:induction false} HeldIsBounded(bars: seq<Bar>)
    ensures |Held(bars)| <= MAX_BARS
  {
    HeldIsNewestOfHistory(bars);
    var h := History(bars);
    NewestIn(h.Keys);
    assert Held(bars).Keys == Newest(h.Keys, MAX_BARS);
    if |h.Keys| >= MAX_BARS {
      NewestCount(h.Keys);
    } else {
      SubsetCount(Newest(h.Keys, MAX_BARS), h.Keys);
    }
    assert |Held(bars).Keys| == |Held(bars)|;
  }
}
