/**
 A worker's received records, in processing order, against the broker's commit history: as long as
 no commit was overtaken, a worker's own commits never run behind each other.
 */
module CommitQueue {
  import opened Common
  import opened Settlement
  import opened CommitOrder

  /**
   What matters of a live worker: its received records in order, how many of them are stamped, and
   whether the commit of the first one has passed its last epoch check.
   */
  datatype View = View(q: seq<Fetched>, stamped: nat, passed: bool,
                       epoch: nat, positions: map<Partition, nat>, since: nat)

  /** Record `k` will be refused by an epoch check, so nothing behind it is ever committed. */
  ghost predicate Doom(v: View, k: nat) {
    k < v.stamped && k < |v.q| && v.q[k].epoch < v.epoch && (k > 0 || !v.passed)
  }

  ghost predicate DoomBefore(v: View, l: int) {
    exists k: nat :: k < l && Doom(v, k)
  }

  /** The offset from which the record's assignment started to read. */
  ghost function Base(commits: seq<Commit>, p: Partition, since: nat): nat
    requires since <= |commits|
  {
    Last(commits[..since], p)
  }

  ghost predicate Chronicle(v: View) {
    && v.stamped <= |v.q| <= v.stamped + 1
    && (forall k :: 0 <= k < |v.q| ==>
          && v.q[k].taken <= v.q[k].epoch <= v.epoch && v.q[k].since <= v.since
          && (v.q[k].taken == v.epoch ==> v.q[k].since == v.since))
    && (forall k, l :: 0 <= k < l < |v.q| ==> v.q[k].epoch <= v.q[l].taken && v.q[k].since <= v.q[l].since)
  }

  /** Offset `o` is committed, or is among the first `before` records, received under epoch `taken`. */
  ghost predicate Reached(commits: seq<Commit>, q: seq<Fetched>, p: Partition, o: nat, before: int, taken: nat) {
    || o < Last(commits, p)
    || exists k :: 0 <= k < before && k < |q| && q[k].partition == p && q[k].offset == o && q[k].taken == taken
  }

  ghost predicate RecordReached(commits: seq<Commit>, q: seq<Fetched>, l: nat)
    requires l < |q| && q[l].since <= |commits|
  {
    && Base(commits, q[l].partition, q[l].since) <= q[l].offset
    && forall o: nat :: Base(commits, q[l].partition, q[l].since) <= o < q[l].offset ==>
         Reached(commits, q, q[l].partition, o, l, q[l].taken)
  }

  ghost predicate PositionReached(commits: seq<Commit>, v: View, p: Partition)
    requires p in v.positions && v.since <= |commits|
  {
    && Base(commits, p, v.since) <= v.positions[p]
    && (forall o: nat :: Base(commits, p, v.since) <= o < v.positions[p] ==> Reached(commits, v.q, p, o, |v.q|, v.epoch))
    && (forall f :: f in v.q && f.partition == p && f.taken == v.epoch ==> f.offset < v.positions[p])
  }

  ghost predicate Contiguous(commits: seq<Commit>, v: View) {
    && v.since <= |commits| && Chronicle(v)
    && (forall l :: 0 <= l < |v.q| ==> RecordReached(commits, v.q, l))
    && (forall p :: p in v.positions ==> PositionReached(commits, v, p))
  }

  ghost predicate PairOk(v: View, k: nat, l: nat)
    requires k < l < |v.q|
  {
    v.q[k].partition == v.q[l].partition ==> v.q[k].offset <= v.q[l].offset || DoomBefore(v, l)
  }

  /** A record of an older assignment does not lie beyond where the current assignment started. */
  ghost predicate OlderOk(commits: seq<Commit>, v: View, k: nat)
    requires k < |v.q| && v.since <= |commits|
  {
    v.q[k].partition in v.positions && v.q[k].taken < v.epoch ==>
      v.q[k].offset <= Base(commits, v.q[k].partition, v.since) || DoomBefore(v, k)
  }

  ghost predicate Ascends(commits: seq<Commit>, v: View) {
    && v.since <= |commits|
    && (forall k, l :: 0 <= k < l < |v.q| ==> PairOk(v, k, l))
    && (forall k :: 0 <= k < |v.q| ==> OlderOk(commits, v, k))
  }

  ghost predicate OwnEntry(commits: seq<Commit>, n: NodeId, p: Partition, since: nat, k: int) {
    since <= k < |commits| && commits[k].member == n && commits[k].partition == p
  }

  ghost predicate OwnBelowRecord(commits: seq<Commit>, n: NodeId, v: View, l: nat)
    requires l < |v.q|
  {
    DoomBefore(v, l) || forall k :: OwnEntry(commits, n, v.q[l].partition, v.q[l].since, k) ==> commits[k].offset <= v.q[l].offset
  }

  ghost predicate OwnBelowPosition(commits: seq<Commit>, n: NodeId, v: View, p: Partition)
    requires p in v.positions
  {
    DoomBefore(v, |v.q|) || forall k :: OwnEntry(commits, n, p, v.since, k) ==> commits[k].offset <= v.positions[p]
  }

  ghost predicate OwnBelow(commits: seq<Commit>, n: NodeId, v: View) {
    && (forall l :: 0 <= l < |v.q| ==> OwnBelowRecord(commits, n, v, l))
    && (forall p :: p in v.positions ==> OwnBelowPosition(commits, n, v, p))
  }

  ghost predicate Ordered(commits: seq<Commit>, n: NodeId, v: View) {
    Contiguous(commits, v) && Ascends(commits, v) && OwnBelow(commits, n, v)
  }

  // ---- Rebalance -----------------------------------------------------------------------------

  function Rebalanced(v: View, commits: seq<Commit>, parts: set<Partition>): View {
    v.(epoch := v.epoch + 1, since := |commits|, positions := map p | p in parts :: Last(commits, p))
  }

  lemma DoomStays(v: View, v': View, l: int)
    requires DoomBefore(v, l) && v'.q == v.q && v'.stamped == v.stamped && v.epoch <= v'.epoch && (v'.passed ==> v.passed)
    ensures DoomBefore(v', l)
  {
    var k: nat :| k < l && Doom(v, k);
    assert Doom(v', k);
  }

  /** The first uncommitted offset before a record of an older assignment carries an older stamp. */
  lemma OlderRecordIsDoomed(commits: seq<Commit>, v: View, parts: set<Partition>, k: nat)
    requires Monotone(commits) && Contiguous(commits, v) && k < |v.q| && v.q[k].partition in parts
    requires v.passed ==> v.q[0].offset < Last(commits, v.q[0].partition)
    ensures OlderOk(commits, Rebalanced(v, commits, parts), k)
  {
    var v' := Rebalanced(v, commits, parts);
    var p, b := v.q[k].partition, Last(commits, v.q[k].partition);
    assert commits[..|commits|] == commits;
    LastGrows(commits, p, v.q[k].since);
    if b < v.q[k].offset {
      assert RecordReached(commits, v.q, k) && Reached(commits, v.q, p, b, k, v.q[k].taken);
      var j :| 0 <= j < k && j < |v.q| && v.q[j].partition == p && v.q[j].offset == b && v.q[j].taken == v.q[k].taken;
      assert v.q[j].epoch <= v.q[k].taken;
      assert Doom(v', j);
    }
  }

  lemma RebalanceContiguous(commits: seq<Commit>, v: View, parts: set<Partition>)
    requires Contiguous(commits, v)
    ensures Contiguous(commits, Rebalanced(v, commits, parts))
  {
    assert commits[..|commits|] == commits;
  }

  lemma RebalanceKeepsOrdered(commits: seq<Commit>, n: NodeId, v: View, parts: set<Partition>)
    requires Monotone(commits) && Ordered(commits, n, v)
    requires v.passed ==> v.q != [] && v.q[0].offset < Last(commits, v.q[0].partition)
    ensures Ordered(commits, n, Rebalanced(v, commits, parts))
  {
    var v' := Rebalanced(v, commits, parts);
    RebalanceContiguous(commits, v, parts);
    forall k, l | 0 <= k < l < |v'.q| ensures PairOk(v', k, l) {
      assert PairOk(v, k, l);
      if DoomBefore(v, l) {
        DoomStays(v, v', l);
      }
    }
    forall k | 0 <= k < |v'.q| ensures OlderOk(commits, v', k) {
      if v.q[k].partition in parts {
        OlderRecordIsDoomed(commits, v, parts, k);
      }
    }
    forall l | 0 <= l < |v'.q| ensures OwnBelowRecord(commits, n, v', l) {
      assert OwnBelowRecord(commits, n, v, l);
      if DoomBefore(v, l) {
        DoomStays(v, v', l);
      }
    }
  }

  // ---- Receipt and stamping ----------------------------------------------------------------------

  function Received(v: View, p: Partition): View
    requires p in v.positions
  {
    v.(q := v.q + [Fetched(p, v.positions[p], v.epoch, v.epoch, v.since)], positions := v.positions[p := v.positions[p] + 1])
  }

  lemma ReachedLonger(commits: seq<Commit>, q: seq<Fetched>, q': seq<Fetched>, p: Partition, o: nat, before: int, more: int, taken: nat)
    requires q <= q' && before <= more && Reached(commits, q, p, o, before, taken)
    ensures Reached(commits, q', p, o, more, taken)
  {
    if o >= Last(commits, p) {
      var k :| 0 <= k < before && k < |q| && q[k].partition == p && q[k].offset == o && q[k].taken == taken;
      assert q'[k] == q[k];
    }
  }

  lemma ReceiveContiguous(commits: seq<Commit>, v: View, p: Partition)
    requires Contiguous(commits, v) && p in v.positions && v.stamped == |v.q|
    ensures Contiguous(commits, Received(v, p))
  {
    var v' := Received(v, p);
    var y := v'.q[|v.q|];
    assert PositionReached(commits, v, p);
    forall l | 0 <= l < |v'.q| ensures RecordReached(commits, v'.q, l) {
      if l < |v.q| {
        assert v'.q[l] == v.q[l] && RecordReached(commits, v.q, l);
      }
      forall o: nat | Base(commits, v'.q[l].partition, v'.q[l].since) <= o < v'.q[l].offset
        ensures Reached(commits, v'.q, v'.q[l].partition, o, l, v'.q[l].taken)
      {
        ReachedLonger(commits, v.q, v'.q, v'.q[l].partition, o, l, l, v'.q[l].taken);
      }
    }
    forall r | r in v'.positions ensures PositionReached(commits, v', r) {
      ReceivePosition(commits, v, p, r);
    }
  }

  lemma ReceivePosition(commits: seq<Commit>, v: View, p: Partition, r: Partition)
    requires Contiguous(commits, v) && p in v.positions && r in v.positions && v.stamped == |v.q|
    ensures PositionReached(commits, Received(v, p), r)
  {
    var v' := Received(v, p);
    assert PositionReached(commits, v, r);
    forall o: nat | Base(commits, r, v.since) <= o < v'.positions[r] ensures Reached(commits, v'.q, r, o, |v'.q|, v.epoch) {
      if o < v.positions[r] {
        ReachedLonger(commits, v.q, v'.q, r, o, |v.q|, |v'.q|, v.epoch);
      } else {
        assert v'.q[|v.q|].offset == o;
      }
    }
    forall f | f in v'.q && f.partition == r && f.taken == v'.epoch ensures f.offset < v'.positions[r] {
      if f in v.q {
        assert f.offset < v.positions[r];
      }
    }
  }

  lemma DoomLonger(v: View, v': View, l: int)
    requires DoomBefore(v, l) && v.q <= v'.q && v'.stamped == v.stamped && v'.epoch == v.epoch && v'.passed == v.passed
    ensures DoomBefore(v', l)
  {
    var k: nat :| k < l && Doom(v, k);
    assert v'.q[k] == v.q[k] && Doom(v', k);
  }

  lemma ReceiveAscends(commits: seq<Commit>, v: View, p: Partition)
    requires Contiguous(commits, v) && Ascends(commits, v) && p in v.positions && v.stamped == |v.q|
    ensures Ascends(commits, Received(v, p))
  {
    var v' := Received(v, p);
    assert PositionReached(commits, v, p);
    forall k, l | 0 <= k < l < |v'.q| ensures PairOk(v', k, l) {
      assert v'.q[k] == v.q[k];
      if l < |v.q| {
        assert v'.q[l] == v.q[l] && PairOk(v, k, l);
        if DoomBefore(v, l) {
          DoomLonger(v, v', l);
        }
      } else if v.q[k].partition == p && v.q[k].taken < v.epoch {
        assert OlderOk(commits, v, k);
        if DoomBefore(v, k) {
          DoomLonger(v, v', k);
        }
      } else if v.q[k].partition == p {
        assert v.q[k] in v.q;
      }
    }
    forall k | 0 <= k < |v'.q| ensures OlderOk(commits, v', k) {
      if k < |v.q| {
        assert v'.q[k] == v.q[k] && OlderOk(commits, v, k);
        if DoomBefore(v, k) {
          DoomLonger(v, v', k);
        }
      }
    }
  }

  lemma ReceiveOwnBelow(commits: seq<Commit>, n: NodeId, v: View, p: Partition)
    requires OwnBelow(commits, n, v) && p in v.positions && v.stamped == |v.q|
    ensures OwnBelow(commits, n, Received(v, p))
  {
    var v' := Received(v, p);
    assert OwnBelowPosition(commits, n, v, p);
    forall l | 0 <= l < |v'.q| ensures OwnBelowRecord(commits, n, v', l) {
      if l < |v.q| {
        assert v'.q[l] == v.q[l] && OwnBelowRecord(commits, n, v, l);
      }
      if DoomBefore(v, l) {
        DoomLonger(v, v', l);
      }
    }
    forall r | r in v'.positions ensures OwnBelowPosition(commits, n, v', r) {
      assert OwnBelowPosition(commits, n, v, r);
      if DoomBefore(v, |v.q|) {
        DoomLonger(v, v', |v.q|);
        var k: nat :| k < |v.q| && Doom(v', k);
        assert k < |v'.q|;
      }
    }
  }

  function Stamped(v: View): View
    requires v.q != []
  {
    var last := |v.q| - 1;
    v.(q := v.q[last := v.q[last].(epoch := v.epoch)], stamped := |v.q|)
  }

  lemma DoomStamped(v: View, l: int)
    requires v.stamped + 1 == |v.q| && l <= |v.q|
    ensures DoomBefore(Stamped(v), l) <==> DoomBefore(v, l)
  {
    var v' := Stamped(v);
    if DoomBefore(v, l) {
      var k: nat :| k < l && Doom(v, k);
      assert Doom(v', k);
    }
    if DoomBefore(v', l) {
      var k: nat :| k < l && Doom(v', k);
      assert Doom(v, k);
    }
  }

  lemma SamePlaces(commits: seq<Commit>, q: seq<Fetched>, q': seq<Fetched>, p: Partition, o: nat, before: int, taken: nat)
    requires |q'| == |q| && Reached(commits, q, p, o, before, taken)
    requires forall k :: 0 <= k < |q| ==> q'[k].partition == q[k].partition && q'[k].offset == q[k].offset && q'[k].taken == q[k].taken
    ensures Reached(commits, q', p, o, before, taken)
  {
  }

  lemma StampContiguous(commits: seq<Commit>, v: View)
    requires Contiguous(commits, v) && v.stamped + 1 == |v.q|
    ensures Contiguous(commits, Stamped(v))
  {
    var v' := Stamped(v);
    forall l | 0 <= l < |v'.q| ensures RecordReached(commits, v'.q, l) {
      assert RecordReached(commits, v.q, l);
      forall o: nat | Base(commits, v'.q[l].partition, v'.q[l].since) <= o < v'.q[l].offset
        ensures Reached(commits, v'.q, v'.q[l].partition, o, l, v'.q[l].taken)
      {
        SamePlaces(commits, v.q, v'.q, v'.q[l].partition, o, l, v'.q[l].taken);
      }
    }
    forall p | p in v'.positions ensures PositionReached(commits, v', p) {
      assert PositionReached(commits, v, p);
      forall o: nat | Base(commits, p, v.since) <= o < v.positions[p] ensures Reached(commits, v'.q, p, o, |v'.q|, v.epoch) {
        SamePlaces(commits, v.q, v'.q, p, o, |v.q|, v.epoch);
      }
      forall f | f in v'.q && f.partition == p && f.taken == v'.epoch ensures f.offset < v'.positions[p] {
        var k :| 0 <= k < |v'.q| && v'.q[k] == f;
        assert v.q[k] in v.q;
      }
    }
  }

  lemma StampKeepsOrdered(commits: seq<Commit>, n: NodeId, v: View)
    requires Ordered(commits, n, v) && v.stamped + 1 == |v.q|
    ensures Ordered(commits, n, Stamped(v))
  {
    var v' := Stamped(v);
    StampContiguous(commits, v);
    forall k, l | 0 <= k < l < |v'.q| ensures PairOk(v', k, l) {
      assert PairOk(v, k, l);
      DoomStamped(v, l);
    }
    forall k | 0 <= k < |v'.q| ensures OlderOk(commits, v', k) {
      assert OlderOk(commits, v, k);
      DoomStamped(v, k);
    }
    forall l | 0 <= l < |v'.q| ensures OwnBelowRecord(commits, n, v', l) {
      assert OwnBelowRecord(commits, n, v, l);
      DoomStamped(v, l);
    }
    forall p | p in v'.positions ensures OwnBelowPosition(commits, n, v', p) {
      assert OwnBelowPosition(commits, n, v, p);
      DoomStamped(v, |v.q|);
    }
  }

  // ---- Passing the last epoch check, and dropping the head -------------------------------------------

  lemma PassKeepsOrdered(commits: seq<Commit>, n: NodeId, v: View, passed: bool)
    requires Ordered(commits, n, v) && (passed && !v.passed ==> v.q != [] && v.q[0].epoch == v.epoch)
    ensures Ordered(commits, n, v.(passed := passed))
  {
    var v' := v.(passed := passed);
    forall l | DoomBefore(v, l) ensures DoomBefore(v', l) {
      var k: nat :| k < l && Doom(v, k);
      assert Doom(v', k);
    }
    assert forall k, l :: 0 <= k < l < |v.q| ==> PairOk(v, k, l) ==> PairOk(v', k, l);
    assert forall k :: 0 <= k < |v.q| ==> OlderOk(commits, v, k) ==> OlderOk(commits, v', k);
    assert forall l :: 0 <= l < |v.q| ==> OwnBelowRecord(commits, n, v, l) ==> OwnBelowRecord(commits, n, v', l);
    assert forall p :: p in v.positions ==> OwnBelowPosition(commits, n, v, p) ==> OwnBelowPosition(commits, n, v', p);
    assert forall p :: p in v.positions ==> PositionReached(commits, v, p) ==> PositionReached(commits, v', p);
  }

  function Dropped(v: View): View
    requires v.q != [] && v.stamped > 0
  {
    v.(q := v.q[1..], stamped := v.stamped - 1, passed := false)
  }

  lemma DoomDropped(v: View, l: int)
    requires v.q != [] && v.stamped > 0 && v.passed && DoomBefore(v, l + 1)
    ensures DoomBefore(Dropped(v), l)
  {
    var k: nat :| k < l + 1 && Doom(v, k);
    assert Doom(Dropped(v), k - 1);
  }

  lemma ReachedDropped(commits: seq<Commit>, q: seq<Fetched>, p: Partition, o: nat, before: int, taken: nat)
    requires q != [] && Reached(commits, q, p, o, before + 1, taken) && q[0].offset < Last(commits, q[0].partition)
    ensures Reached(commits, q[1..], p, o, before, taken)
  {
    if o >= Last(commits, p) {
      var k :| 0 <= k < before + 1 && k < |q| && q[k].partition == p && q[k].offset == o && q[k].taken == taken;
      assert q[1..][k - 1] == q[k];
    }
  }

  lemma DropContiguous(commits: seq<Commit>, v: View)
    requires Contiguous(commits, v) && v.q != [] && v.stamped > 0 && v.q[0].offset < Last(commits, v.q[0].partition)
    ensures Contiguous(commits, Dropped(v))
  {
    var v' := Dropped(v);
    forall l | 0 <= l < |v'.q| ensures RecordReached(commits, v'.q, l) {
      assert v'.q[l] == v.q[l + 1] && RecordReached(commits, v.q, l + 1);
      forall o: nat | Base(commits, v'.q[l].partition, v'.q[l].since) <= o < v'.q[l].offset
        ensures Reached(commits, v'.q, v'.q[l].partition, o, l, v'.q[l].taken)
      {
        ReachedDropped(commits, v.q, v'.q[l].partition, o, l, v'.q[l].taken);
      }
    }
    forall p | p in v'.positions ensures PositionReached(commits, v', p) {
      assert PositionReached(commits, v, p);
      forall o: nat | Base(commits, p, v.since) <= o < v.positions[p] ensures Reached(commits, v'.q, p, o, |v'.q|, v.epoch) {
        ReachedDropped(commits, v.q, p, o, |v'.q|, v.epoch);
      }
    }
    forall k, l | 0 <= k < l < |v'.q| ensures v'.q[k].epoch <= v'.q[l].taken && v'.q[k].since <= v'.q[l].since {
      assert v'.q[k] == v.q[k + 1] && v'.q[l] == v.q[l + 1];
    }
  }

  lemma DropKeepsOrdered(commits: seq<Commit>, n: NodeId, v: View)
    requires Ordered(commits, n, v) && v.q != [] && v.stamped > 0 && v.passed && v.q[0].offset < Last(commits, v.q[0].partition)
    ensures Ordered(commits, n, Dropped(v))
  {
    var v' := Dropped(v);
    DropContiguous(commits, v);
    forall k, l | 0 <= k < l < |v'.q| ensures PairOk(v', k, l) {
      assert v'.q[k] == v.q[k + 1] && v'.q[l] == v.q[l + 1] && PairOk(v, k + 1, l + 1);
      if DoomBefore(v, l + 1) {
        DoomDropped(v, l);
      }
    }
    forall k | 0 <= k < |v'.q| ensures OlderOk(commits, v', k) {
      assert v'.q[k] == v.q[k + 1] && OlderOk(commits, v, k + 1);
      if DoomBefore(v, k + 1) {
        DoomDropped(v, k);
      }
    }
    forall l | 0 <= l < |v'.q| ensures OwnBelowRecord(commits, n, v', l) {
      assert v'.q[l] == v.q[l + 1] && OwnBelowRecord(commits, n, v, l + 1);
      if DoomBefore(v, l + 1) {
        DoomDropped(v, l);
      }
    }
    forall p | p in v'.positions ensures OwnBelowPosition(commits, n, v', p) {
      assert OwnBelowPosition(commits, n, v, p);
      if DoomBefore(v, |v.q|) {
        DoomDropped(v, |v'.q|);
      }
    }
  }

  // ---- Commits accepted by the broker ------------------------------------------------------------

  lemma ReachedLater(commits: seq<Commit>, c: Commit, q: seq<Fetched>, p: Partition, o: nat, before: int, taken: nat)
    requires Monotone(commits + [c]) && Reached(commits, q, p, o, before, taken)
    ensures Reached(commits + [c], q, p, o, before, taken)
  {
    LastAfter(commits, c, p);
    LastGrows(commits + [c], p, |commits|);
    assert (commits + [c])[..|commits|] == commits;
  }

  lemma CommitContiguous(commits: seq<Commit>, c: Commit, v: View)
    requires Monotone(commits + [c]) && Contiguous(commits, v)
    ensures Contiguous(commits + [c], v)
  {
    var more := commits + [c];
    forall since | 0 <= since <= |commits| ensures more[..since] == commits[..since] {
    }
    forall l | 0 <= l < |v.q| ensures RecordReached(more, v.q, l) {
      assert RecordReached(commits, v.q, l);
      forall o: nat | Base(more, v.q[l].partition, v.q[l].since) <= o < v.q[l].offset
        ensures Reached(more, v.q, v.q[l].partition, o, l, v.q[l].taken)
      {
        ReachedLater(commits, c, v.q, v.q[l].partition, o, l, v.q[l].taken);
      }
    }
    forall p | p in v.positions ensures PositionReached(more, v, p) {
      assert PositionReached(commits, v, p);
      forall o: nat | Base(more, p, v.since) <= o < v.positions[p] ensures Reached(more, v.q, p, o, |v.q|, v.epoch) {
        ReachedLater(commits, c, v.q, p, o, |v.q|, v.epoch);
      }
    }
  }

  lemma CommitAscends(commits: seq<Commit>, c: Commit, v: View)
    requires Ascends(commits, v)
    ensures Ascends(commits + [c], v)
  {
    assert (commits + [c])[..v.since] == commits[..v.since];
    forall k | 0 <= k < |v.q| ensures OlderOk(commits + [c], v, k) {
      assert OlderOk(commits, v, k);
    }
  }

  /** Another member's commit does not touch what a worker knows of its own. */
  lemma ForeignCommitKeepsOrdered(commits: seq<Commit>, c: Commit, n: NodeId, v: View)
    requires Monotone(commits + [c]) && Ordered(commits, n, v) && c.member != n
    ensures Ordered(commits + [c], n, v)
  {
    CommitContiguous(commits, c, v);
    CommitAscends(commits, c, v);
    forall l | 0 <= l < |v.q| ensures OwnBelowRecord(commits + [c], n, v, l) {
      assert OwnBelowRecord(commits, n, v, l);
      if !DoomBefore(v, l) {
        forall k | OwnEntry(commits + [c], n, v.q[l].partition, v.q[l].since, k) ensures (commits + [c])[k].offset <= v.q[l].offset {
          assert OwnEntry(commits, n, v.q[l].partition, v.q[l].since, k);
        }
      }
    }
    forall p | p in v.positions ensures OwnBelowPosition(commits + [c], n, v, p) {
      assert OwnBelowPosition(commits, n, v, p);
      if !DoomBefore(v, |v.q|) {
        forall k | OwnEntry(commits + [c], n, p, v.since, k) ensures (commits + [c])[k].offset <= v.positions[p] {
          assert OwnEntry(commits, n, p, v.since, k);
        }
      }
    }
  }

  /** A worker's own commit is that of its first record, so everything behind stays at or above it. */
  lemma OwnCommitKeepsOrdered(commits: seq<Commit>, n: NodeId, v: View)
    requires v.q != [] && Ordered(commits, n, v)
    requires Monotone(commits + [Settlement.Commit(n, v.q[0].partition, v.q[0].offset)])
    ensures Ordered(commits + [Settlement.Commit(n, v.q[0].partition, v.q[0].offset)], n, v)
  {
    var c := Settlement.Commit(n, v.q[0].partition, v.q[0].offset);
    CommitContiguous(commits, c, v);
    CommitAscends(commits, c, v);
    forall l | 0 <= l < |v.q| ensures OwnBelowRecord(commits + [c], n, v, l) {
      assert OwnBelowRecord(commits, n, v, l);
      if l > 0 {
        assert PairOk(v, 0, l);
      }
      if !DoomBefore(v, l) {
        forall k | OwnEntry(commits + [c], n, v.q[l].partition, v.q[l].since, k) ensures (commits + [c])[k].offset <= v.q[l].offset {
          if k < |commits| {
            assert OwnEntry(commits, n, v.q[l].partition, v.q[l].since, k);
          }
        }
      }
    }
    forall p | p in v.positions ensures OwnBelowPosition(commits + [c], n, v, p) {
      OwnCommitBelowPosition(commits, n, v, p);
    }
  }

  lemma OwnCommitBelowPosition(commits: seq<Commit>, n: NodeId, v: View, p: Partition)
    requires v.q != [] && Ordered(commits, n, v) && p in v.positions
    ensures OwnBelowPosition(commits + [Settlement.Commit(n, v.q[0].partition, v.q[0].offset)], n, v, p)
  {
    var c := Settlement.Commit(n, v.q[0].partition, v.q[0].offset);
    assert OwnBelowPosition(commits, n, v, p) && PositionReached(commits, v, p) && OlderOk(commits, v, 0) && v.q[0] in v.q;
    if !DoomBefore(v, |v.q|) {
      forall k | OwnEntry(commits + [c], n, p, v.since, k) ensures (commits + [c])[k].offset <= v.positions[p] {
        if k < |commits| {
          assert OwnEntry(commits, n, p, v.since, k);
        }
      }
    }
  }
}
