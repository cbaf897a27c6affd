/**
 The command-ack store (backend/api/consumer.py:333-343): a dictionary in insertion order, bounded by dropping its first
 keys.
 */
module AckStore {
  import opened Prelude

  const MAX_ACKS: nat := 2000

  datatype Ack = Ack(id: string, status: string)

  predicate Distinct(acks: seq<Ack>) {
    forall i, j :: 0 <= i < j < |acks| ==> acks[i].id != acks[j].id
  }

  /** `acks[id] = ack`: a key already there keeps its place. */
  function Put(acks: seq<Ack>, a: Ack): (r: seq<Ack>)
    ensures |acks| <= |r| <= |acks| + 1
  {
    if acks == [] then [a]
    else if acks[0].id == a.id then [a] + acks[1..]
    else [acks[0]] + Put(acks[1..], a)
  }

  function Stored(acks: seq<Ack>, a: Ack): seq<Ack> {
    if a.id == "" then acks
    else
      var put := Put(acks, a);
      if |put| > MAX_ACKS then put[|put| - MAX_ACKS..] else put
  }

  function StoredAll(all: seq<Ack>): seq<Ack>
    decreases |all|
  {
    if all == [] then [] else Stored(StoredAll(all[..|all| - 1]), all[|all| - 1])
  }

  class Acks {
    var acks: seq<Ack>

    constructor ()
      ensures acks == []
    {
      acks := [];
    }

    method StoreAck(a: Ack)
      modifies this
      ensures acks == Stored(old(acks), a)
    {
      if a.id == "" {
        return;
      }
      acks := Put(acks, a);
      if |acks| > MAX_ACKS {
        ghost var put := acks;
        var excess := |acks| - MAX_ACKS;
        var n := 0;
        while n < excess
          invariant n <= excess <= |put|
          invariant acks == put[n..]
        {
          acks := acks[1..];
          n := n + 1;
        }
      }
    }
  }

  predicate Has(acks: seq<Ack>, id: string) {
    exists x :: x in acks && x.id == id
  }

  lemma {:induction false} DistinctTail(acks: seq<Ack>)
    requires Distinct(acks) && acks != []
    ensures Distinct(acks[1..])
    ensures forall x :: x in acks[1..] ==> x.id != acks[0].id
    ensures forall x :: x in acks <==> x == acks[0] || x in acks[1..]
  {
    assert acks == [acks[0]] + acks[1..];
    assert forall i :: 0 <= i < |acks[1..]| ==> acks[1..][i] == acks[i + 1];
  }

  lemma {:induction false} DistinctWith(a: Ack, rest: seq<Ack>)
    requires Distinct(rest) && forall x :: x in rest ==> x.id != a.id
    ensures Distinct([a] + rest)
  {
    assert forall i :: 0 <= i < |rest| ==> rest[i] in rest;
  }

  lemma {:induction false} PutLaws(acks: seq<Ack>, a: Ack)
    requires Distinct(acks)
    ensures Distinct(Put(acks, a))
    ensures forall x :: x in Put(acks, a) <==> x == a || (x in acks && x.id != a.id)
  {
    hide Distinct;
    if acks == [] {
      NothingDistinct();
      DistinctWith(a, []);
      assert [a] + [] == [a];
    } else {
      DistinctTail(acks);
      PutLaws(acks[1..], a);
      if acks[0].id == a.id {
        DistinctWith(a, acks[1..]);
      } else {
        DistinctWith(acks[0], Put(acks[1..], a));
      }
    }
  }

  lemma {:induction false} NothingDistinct()
    ensures Distinct([])
  {
  }

  /** A new key goes to the end; a key already there grows nothing. */
  lemma {:induction false} PutPlaces(acks: seq<Ack>, a: Ack)
    ensures !Has(acks, a.id) ==> Put(acks, a) == acks + [a]
    ensures Has(acks, a.id) ==> |Put(acks, a)| == |acks|
  {
    if acks != [] {
      assert acks == [acks[0]] + acks[1..];
      assert acks[0] in acks && forall x :: x in acks[1..] ==> x in acks;
      PutPlaces(acks[1..], a);
    }
  }

  lemma {:induction false} DistinctSuffix(acks: seq<Ack>, n: nat)
    requires Distinct(acks) && n <= |acks|
    ensures Distinct(acks[n..])
  {
  }

  /** Over every run: one entry a command, at most the maximum, and the ack just received is the one held. */
  lemma {:induction false} StoreIsBounded(all: seq<Ack>)
    ensures Distinct(StoredAll(all)) && |StoredAll(all)| <= MAX_ACKS
    ensures all != [] && all[|all| - 1].id != "" ==> all[|all| - 1] in StoredAll(all)
    decreases |all|
  {
    hide Put;
    if all != [] {
      var n := |all| - 1;
      var acks, a := StoredAll(all[..n]), all[n];
      StoreIsBounded(all[..n]);
      if a.id != "" {
        PutLaws(acks, a);
        PutPlaces(acks, a);
        var put := Put(acks, a);
        if |put| > MAX_ACKS {
          DistinctSuffix(put, |put| - MAX_ACKS);
          assert put == acks + [a];
          assert put[|put| - MAX_ACKS..][MAX_ACKS - 1] == a;
        }
      }
    }
  }

  // ---- against the history -----------------------------------------------------------------------

  function Ids(acks: seq<Ack>): (r: seq<string>)
    ensures |r| == |acks|
    ensures forall i :: 0 <= i < |r| ==> r[i] == acks[i].id
  {
    seq(|acks|, i requires 0 <= i < |acks| => acks[i].id)
  }

  function LastFew(ids: seq<string>): seq<string> {
    if |ids| > MAX_ACKS then ids[|ids| - MAX_ACKS..] else ids
  }

  /** The commands in the order they entered, read off the history alone: again only once as many others have entered since. */
  function Entered(all: seq<Ack>): seq<string>
    decreases |all|
  {
    if all == [] then []
    else
      var before, a := Entered(all[..|all| - 1]), all[|all| - 1];
      if a.id == "" || a.id in LastFew(before) then before else before + [a.id]
  }

  /** The last ack of the history for a command. */
  function Latest(all: seq<Ack>, id: string): Option<Ack>
    decreases |all|
  {
    if all == [] then None
    else if all[|all| - 1].id == id then Some(all[|all| - 1])
    else Latest(all[..|all| - 1], id)
  }

  lemma {:induction false} HasIsIn(acks: seq<Ack>, id: string)
    ensures Has(acks, id) <==> id in Ids(acks)
  {
    if Has(acks, id) {
      var x :| x in acks && x.id == id;
      var i :| 0 <= i < |acks| && acks[i] == x;
      assert Ids(acks)[i] == id;
    }
    if id in Ids(acks) {
      var i :| 0 <= i < |acks| && Ids(acks)[i] == id;
      assert acks[i] in acks;
    }
  }

  lemma {:induction false} IdsFirst(x: Ack, rest: seq<Ack>)
    ensures Ids([x] + rest) == [x.id] + Ids(rest)
  {
  }

  lemma {:induction false} HasFirst(x: Ack, rest: seq<Ack>, id: string)
    ensures Has([x] + rest, id) <==> x.id == id || Has(rest, id)
  {
    assert x in [x] + rest && forall y :: y in [x] + rest <==> y == x || y in rest;
  }

  lemma {:induction false} PutKeepsIds(acks: seq<Ack>, a: Ack)
    ensures Ids(Put(acks, a)) == if Has(acks, a.id) then Ids(acks) else Ids(acks) + [a.id]
  {
    hide Ids, Has;
    if acks == [] {
      NoIds(a.id);
      IdsFirst(a, []);
      assert [a] + [] == [a];
    } else {
      assert acks == [acks[0]] + acks[1..];
      PutKeepsIds(acks[1..], a);
      IdsFirst(acks[0], acks[1..]);
      IdsFirst(a, acks[1..]);
      IdsFirst(acks[0], Put(acks[1..], a));
      HasFirst(acks[0], acks[1..], a.id);
    }
  }

  lemma {:induction false} NoIds(id: string)
    ensures Ids([]) == [] && !Has([], id)
  {
  }

  /** An ack received again leaves every command where it was, at whatever age: only what it says is new. */
  lemma {:induction false} ReAckDoesNotRenew(acks: seq<Ack>, again: Ack)
    requires Distinct(acks) && |acks| <= MAX_ACKS && Has(acks, again.id) && again.id != ""
    ensures Ids(Stored(acks, again)) == Ids(acks)
    ensures again in Stored(acks, again) && forall x :: x in acks && x.id != again.id ==> x in Stored(acks, again)
  {
    hide Put, Distinct, Has;
    PutLaws(acks, again);
    PutKeepsIds(acks, again);
    assert |Ids(Put(acks, again))| == |Ids(acks)|;
  }

  /**
   After any sequence of acks, what is held is read off the history: the commands are the last 2000 to enter, in that order,
   and each has the last ack received for it.
   */
  lemma {:induction false} HeldIsNewestOfHistory(all: seq<Ack>)
    ensures Ids(StoredAll(all)) == LastFew(Entered(all))
    ensures forall x :: x in StoredAll(all) ==> Latest(all, x.id) == Some(x)
    decreases |all|
  {
    hide Put, Has, Distinct, Ids, LastFew, Stored;
    if all == [] {
      NothingHeld();
    } else {
      var n := |all| - 1;
      HeldIsNewestOfHistory(all[..n]);
      StoreIsBounded(all[..n]);
      NoEmptyId(all[..n]);
      StoredIds(StoredAll(all[..n]), all[n]);
      StoredMembers(StoredAll(all[..n]), all[n]);
      LastFewMore(Entered(all[..n]), all[n].id);
    }
  }

  lemma {:induction false} NothingHeld()
    ensures Ids(StoredAll([])) == LastFew(Entered([]))
  {
  }

  lemma {:induction false} StoredIds(acks: seq<Ack>, a: Ack)
    requires |acks| <= MAX_ACKS
    ensures Ids(Stored(acks, a)) == if a.id == "" || a.id in Ids(acks) then Ids(acks) else LastFew(Ids(acks) + [a.id])
  {
    hide Put, Has, Ids;
    if a.id != "" {
      PutKeepsIds(acks, a);
      HasIsIn(acks, a.id);
      PutPlaces(acks, a);
      TrimmedIds(Put(acks, a));
      SameLength(acks);
    }
  }

  lemma {:induction false} SameLength(acks: seq<Ack>)
    ensures |Ids(acks)| == |acks|
  {
  }

  lemma {:induction false} StoredMembers(acks: seq<Ack>, a: Ack)
    requires Distinct(acks)
    ensures forall x :: x in Stored(acks, a) ==> (x == a && a.id != "") || (x in acks && (a.id != "" ==> x.id != a.id))
  {
    hide Put, Distinct;
    PutLaws(acks, a);
  }

  lemma {:induction false} TrimmedIds(put: seq<Ack>)
    ensures Ids(if |put| > MAX_ACKS then put[|put| - MAX_ACKS..] else put) == LastFew(Ids(put))
  {
  }

  lemma {:induction false} LastFewMore(ids: seq<string>, id: string)
    ensures LastFew(LastFew(ids) + [id]) == LastFew(ids + [id])
    ensures LastFew(LastFew(ids)) == LastFew(ids)
  {
  }

  lemma {:induction false} NoEmptyId(all: seq<Ack>)
    ensures forall x :: x in StoredAll(all) ==> x.id != ""
    decreases |all|
  {
    hide Put, Distinct;
    if all != [] {
      var n := |all| - 1;
      NoEmptyId(all[..n]);
      StoreIsBounded(all[..n]);
      if all[n].id != "" {
        PutLaws(StoredAll(all[..n]), all[n]);
      }
    }
  }
}
