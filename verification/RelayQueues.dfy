/**
 Queues as what is left of a history: the live frames of a destination are the accepted ones that are
 not settled, in order of acceptance, and settling some removes exactly those.

 The three ways in which a queue changes are stated here without the relay: a frame is appended when
 it is accepted, the expired frames are dropped together, and one frame is removed when it is
 acknowledged. Because accepted frames are pairwise different, removing the first frame that is equal
 to a given one and removing that frame from the history come to the same.
 */
module RelayQueues {
  import opened Sequences
  import opened Relay

  /** The accepted frames for `d` that are not settled, in order of acceptance. */
  function Live(accepted: seq<Frame>, settled: set<Frame>, d: string): seq<Frame> {
    if accepted == [] then []
    else
      var last := accepted[|accepted| - 1];
      Live(accepted[..|accepted| - 1], settled, d)
      + (if last.destination == d && last !in settled then [last] else [])
  }

  lemma {:induction false} LiveMembers(accepted: seq<Frame>, settled: set<Frame>, d: string, f: Frame)
    ensures f in Live(accepted, settled, d) <==> f in accepted && f.destination == d && f !in settled
  {
    if accepted != [] {
      LiveMembers(accepted[..|accepted| - 1], settled, d, f);
      assert accepted == accepted[..|accepted| - 1] + [accepted[|accepted| - 1]];
    }
  }

  function Without(q: seq<Frame>, gone: set<Frame>): seq<Frame> {
    if q == [] then []
    else Without(q[..|q| - 1], gone) + (if q[|q| - 1] !in gone then [q[|q| - 1]] else [])
  }

  lemma WithoutAppend(q: seq<Frame>, f: Frame, gone: set<Frame>)
    ensures Without(q + [f], gone) == Without(q, gone) + (if f !in gone then [f] else [])
  {
    assert (q + [f])[..|q|] == q;
  }

  /** Settling more frames removes exactly them, and leaves the order of the rest. */
  lemma {:induction false} LiveWithout(accepted: seq<Frame>, settled: set<Frame>, gone: set<Frame>, d: string)
    ensures Live(accepted, settled + gone, d) == Without(Live(accepted, settled, d), gone)
  {
    if accepted != [] {
      var front, last := accepted[..|accepted| - 1], accepted[|accepted| - 1];
      LiveWithout(front, settled, gone, d);
      WithoutAppend(Live(front, settled, d), last, gone);
      LiveLast(accepted, settled, d);
      LiveLast(accepted, settled + gone, d);
    }
  }

  lemma LiveLast(accepted: seq<Frame>, settled: set<Frame>, d: string)
    requires accepted != []
    ensures var front, last := Live(accepted[..|accepted| - 1], settled, d), accepted[|accepted| - 1];
            Live(accepted, settled, d) == if last.destination == d && last !in settled then front + [last] else front
  {}

  lemma {:induction false} WithoutNothing(q: seq<Frame>, gone: set<Frame>)
    requires forall f :: f in q ==> f !in gone
    ensures Without(q, gone) == q
  {
    if q != [] {
      WithoutNothing(q[..|q| - 1], gone);
    }
  }

  lemma {:induction false} UnexpiredIsWithout(q: seq<Frame>, now: int, gone: set<Frame>)
    requires forall f :: f in q ==> (f in gone <==> now >= f.expiresAt)
    ensures Unexpired(q, now) == Without(q, gone)
  {
    if q != [] {
      UnexpiredIsWithout(q[..|q| - 1], now, gone);
      assert q[|q| - 1] in q;
    }
  }

  lemma {:induction false} LiveDistinct(accepted: seq<Frame>, settled: set<Frame>, d: string)
    requires NoDuplicates(accepted)
    ensures NoDuplicates(Live(accepted, settled, d))
  {
    if accepted != [] {
      var front, last := accepted[..|accepted| - 1], accepted[|accepted| - 1];
      LiveDistinct(front, settled, d);
      LiveMembers(front, settled, d, last);
      LiveLast(accepted, settled, d);
      hide Live;
      assert last !in front;
    }
  }

  /** Without duplicates, removing the first equal frame removes the frame and nothing else. */
  lemma {:induction false} RemoveFirstIsWithout(q: seq<Frame>, f: Frame)
    requires NoDuplicates(q)
    ensures RemoveFirst(q, f) == Without(q, {f})
  {
    if q != [] {
      hide Without;
      WithoutFront(q, {f});
      if q[0] == f {
        assert forall k :: 0 < k < |q| ==> q[k] != q[0];
        WithoutNothing(q[1..], {f});
      } else {
        RemoveFirstIsWithout(q[1..], f);
      }
    }
  }

  lemma {:induction false} WithoutFront(q: seq<Frame>, gone: set<Frame>)
    requires q != []
    ensures Without(q, gone) == (if q[0] !in gone then [q[0]] else []) + Without(q[1..], gone)
  {
    var n := |q| - 1;
    if n == 0 {
      assert q[..0] == [] && q[1..] == [];
    } else {
      WithoutFront(q[..n], gone);
      assert q[..n][1..] == q[1..][..n - 1];
      assert q[1..][|q[1..]| - 1] == q[n];
    }
  }

  /** Where `f` was accepted. */
  lemma {:induction false} LiveKeepsOrder(accepted: seq<Frame>, settled: set<Frame>, d: string, i: nat, j: nat)
    returns (m: nat, n: nat)
    requires i < j < |Live(accepted, settled, d)|
    ensures m < n < |accepted|
    ensures accepted[m] == Live(accepted, settled, d)[i] && accepted[n] == Live(accepted, settled, d)[j]
  {
    var front := accepted[..|accepted| - 1];
    LiveLast(accepted, settled, d);
    if j < |Live(front, settled, d)| {
      m, n := LiveKeepsOrder(front, settled, d, i, j);
    } else {
      n := |accepted| - 1;
      LiveMembers(front, settled, d, Live(front, settled, d)[i]);
      m :| m < |front| && front[m] == Live(front, settled, d)[i];
    }
  }

  lemma {:induction false} UnexpiredMembers(q: seq<Frame>, now: int, f: Frame)
    ensures f in Unexpired(q, now) <==> f in q && now < f.expiresAt
  {
    if q != [] {
      UnexpiredMembers(q[..|q| - 1], now, f);
      assert q == q[..|q| - 1] + [q[|q| - 1]];
    }
  }
}
