/** The particle store of the scene: two index-aligned sequences of render and simulation
    records under a hard capacity, the capacity-gated append, the swap-with-last removal that
    holds the cursor, and the per-frame update pass that walks a store growing and shrinking
    under it. */
module Scene {
  import opened Vectors
  import opened Particles
  import opened Sequences

  /** A view of the store: both sequences, plus the identity of every record (its birth
      number) and the next birth number to hand out. */
  datatype Snapshot = Snapshot(fireworks: seq<Firework>, updates: seq<FireworkUpdate>,
                               ids: seq<nat>, nextId: nat)

  /** `t` is `s` followed by the records that got through the gate out of the attempted
      appends `fs`/`us`, made in order: the leading ones, as many as fit, each with a fresh
      identity. */
  ghost predicate Appended(s: Snapshot, t: Snapshot, fs: seq<Firework>, us: seq<FireworkUpdate>)
  {
    var n := |s.fireworks|;
    |fs| == |us| &&
    t.fireworks == s.fireworks + Admit(n, fs) &&
    t.updates == s.updates + Admit(n, us) &&
    t.nextId == s.nextId + |Admit(n, fs)| &&
    t.ids == s.ids + Range(s.nextId, t.nextId)
  }

  /** Two runs of attempts in a row are one run of all of them. */
  lemma AppendedThen(s: Snapshot, t: Snapshot, w: Snapshot, fs: seq<Firework>, us: seq<FireworkUpdate>,
                     gs: seq<Firework>, vs: seq<FireworkUpdate>)
    requires |s.fireworks| == |s.updates|
    requires Appended(s, t, fs, us) && Appended(t, w, gs, vs)
    ensures Appended(s, w, fs + gs, us + vs)
  {
    var n := |s.fireworks|;
    AdmitThen(n, fs, gs);
    AdmitThen(n, us, vs);
    RangeConcat(s.nextId, t.nextId, w.nextId);
    var m := |Admit(n, fs)|;
    assert |t.fireworks| == n + m;
    assert w.fireworks == s.fireworks + (Admit(n, fs) + Admit(n + m, gs));
    assert w.updates == s.updates + (Admit(n, us) + Admit(n + m, vs));
    assert w.ids == s.ids + (Range(s.nextId, t.nextId) + Range(t.nextId, w.nextId));
  }

  /** Overwriting a simulation record of the old part commutes with appending. */
  lemma AppendedSetSim(s: Snapshot, t: Snapshot, fs: seq<Firework>, us: seq<FireworkUpdate>,
                       i: nat, u: FireworkUpdate)
    requires Appended(s, t, fs, us) && i < |s.updates|
    ensures Appended(s.(updates := s.updates[i := u]), t.(updates := t.updates[i := u]), fs, us)
  {
    var n := |s.fireworks|;
    assert (s.updates + Admit(n, us))[i := u] == s.updates[i := u] + Admit(n, us);
  }

  /** Making no attempt leaves the store as it was. */
  lemma AppendedNothing(s: Snapshot)
    ensures Appended(s, s, [], [])
  {
    assert Admit<Firework>(|s.fireworks|, []) == [];
    assert Admit<FireworkUpdate>(|s.fireworks|, []) == [];
  }

  /** What `RemoveFireworkIfDeadAndMoveToNext` does to the store `s` at cursor `i`. */
  ghost predicate RemovedOrAdvanced(s: Snapshot, i: nat, t: Snapshot, next: nat)
  {
    i < |s.fireworks| && i < |s.updates| && i < |s.ids| &&
    if s.updates[i].life <= 0.0 then
      t == Snapshot(SwapRemove(s.fireworks, i), SwapRemove(s.updates, i), SwapRemove(s.ids, i), s.nextId) && next == i
    else
      t == s && next == i + 1
  }

  /** What holds before every visit of the update pass, with cursor `i`: the records before
      the cursor are alive, every record keeps the launch assumption, the identities visited
      so far together with those still ahead of the cursor are exactly those present at the
      start and those born since, each once; and when every starting record was due to die
      without emitting, nothing has been born, the cursor has not moved and every record left
      is still one of those. */
  ghost predicate PassInvariant(s: Snapshot, i: nat, visited: seq<nat>, ids0: seq<nat>, next0: nat,
                                quiet: bool, frameTime: real)
  {
    |s.fireworks| == |s.updates| == |s.ids| && i <= |s.updates| && next0 <= s.nextId &&
    (forall k :: 0 <= k < |s.updates| ==> FinitePayload(s.updates[k])) &&
    (forall k :: 0 <= k < i ==> s.updates[k].life > 0.0) &&
    multiset(visited) + multiset(s.ids[i..]) == multiset(ids0) + multiset(Range(next0, s.nextId)) &&
    (quiet ==> i == 0 && s.nextId == next0 &&
               forall k :: 0 <= k < |s.updates| ==> Attempts(s.updates[k], frameTime) == 0 && s.updates[k].life <= frameTime)
  }

  /** The store `mid` left by the tick of the record at `i` of `s`: slot `i` updated in
      flight, and the admitted emissions appended. */
  ghost predicate Ticked(s: Snapshot, i: nat, mid: Snapshot, frameTime: real, decay: real,
                         oracle: RandomOracle, d: nat, blank: FireworkUpdate)
  {
    i < |s.fireworks| && i < |s.updates| &&
    var f1 := InFlightRender(s.fireworks[i], s.updates[i], frameTime);
    var u1 := InFlightSim(s.updates[i], frameTime, decay);
    var k := Attempts(s.updates[i], frameTime);
    Appended(Snapshot(s.fireworks[i := f1], s.updates[i := u1], s.ids, s.nextId), mid,
             EmittedRenders(f1, u1, k), EmittedSims(u1, k, oracle, d, blank))
  }

  /** The ticked store is the old one with slot `i` replaced and the newborn records after;
      every newborn is of a lower generation than the record that emitted it, and not a Peony. */
  lemma TickedShape(s: Snapshot, i: nat, mid: Snapshot, frameTime: real, decay: real,
                    oracle: RandomOracle, d: nat, blank: FireworkUpdate)
    requires |s.fireworks| == |s.updates| == |s.ids|
    requires Ticked(s, i, mid, frameTime, decay, oracle, d, blank) && FinitePayload(s.updates[i])
    ensures s.nextId <= mid.nextId
    ensures |mid.fireworks| == |mid.updates| == |mid.ids| == |s.updates| + (mid.nextId - s.nextId)
    ensures mid.updates[..|s.updates|] == s.updates[i := InFlightSim(s.updates[i], frameTime, decay)]
    ensures mid.updates[i + 1..] == s.updates[i + 1..] + mid.updates[|s.updates|..]
    ensures mid.ids[i + 1..] == s.ids[i + 1..] + Range(s.nextId, mid.nextId)
    ensures mid.ids[..|s.ids|] == s.ids
    ensures forall k :: |s.updates| <= k < |mid.updates| ==>
      Rank(mid.updates[k].kind) < Rank(s.updates[i].kind) && mid.updates[k].kind != PeonyRocket
    ensures Attempts(s.updates[i], frameTime) == 0 ==> mid.nextId == s.nextId
  {
    var u1 := InFlightSim(s.updates[i], frameTime, decay);
    var k := Attempts(s.updates[i], frameTime);
    var n := |s.updates|;
    EmittedLowerRank(u1, k, oracle, d, blank);
    var born := Admit(n, EmittedSims(u1, k, oracle, d, blank));
    assert mid.updates == s.updates[i := u1] + born;
    assert mid.updates[n..] == born;
    assert mid.updates[i + 1..] == s.updates[i + 1..] + born;
  }

  /** After the removal step the records ahead of the cursor are those after slot `i`
      before it, in the same order or with the last one brought to the front. */
  lemma PendingAfterRemoval<T>(m: seq<T>, i: nat, t: seq<T>, next: nat, dead: bool)
    requires i < |m|
    requires dead ==> t == SwapRemove(m, i) && next == i
    requires !dead ==> t == m && next == i + 1
    ensures next <= |t|
    ensures dead ==> t[next..] == RotateRight(m[i + 1..])
    ensures !dead ==> t[next..] == m[i + 1..]
    ensures multiset(t[next..]) == multiset(m[i + 1..])
  {
    if dead {
      SwapRemoveSuffix(m, i);
      RotateRightMultiset(m[i + 1..]);
    }
  }

  /** Each visit takes the visited record out of the pending ones and adds only lower
      generations: the measure of the update loop goes down. */
  lemma VisitDecreases(s: Snapshot, i: nat, mid: Snapshot, t: Snapshot, next: nat, frameTime: real,
                       decay: real, oracle: RandomOracle, d: nat, blank: FireworkUpdate)
    requires |s.fireworks| == |s.updates| == |s.ids| && i < |s.updates|
    requires Ticked(s, i, mid, frameTime, decay, oracle, d, blank) && FinitePayload(s.updates[i])
    requires RemovedOrAdvanced(mid, i, t, next)
    ensures next <= |t.updates|
    ensures RankLess(t.updates[next..], s.updates[i..])
  {
    TickedShape(s, i, mid, frameTime, decay, oracle, d, blank);
    var born := mid.updates[|s.updates|..];
    PendingAfterRemoval(mid.updates, i, t.updates, next, mid.updates[i].life <= 0.0);
    assert s.updates[i..] == [s.updates[i]] + s.updates[i + 1..];
    VisitLowersPending(s.updates[i], s.updates[i + 1..], born, t.updates[next..]);
  }

  /** The slots of a ticked store that were there before: slot `i` updated in flight,
      the others unchanged. */
  lemma TickedOldSlots(s: Snapshot, i: nat, mid: Snapshot, frameTime: real, decay: real,
                       oracle: RandomOracle, d: nat, blank: FireworkUpdate)
    requires |s.fireworks| == |s.updates| == |s.ids|
    requires Ticked(s, i, mid, frameTime, decay, oracle, d, blank) && FinitePayload(s.updates[i])
    ensures |s.updates| <= |mid.updates|
    ensures forall k :: 0 <= k < |s.updates| ==>
      mid.updates[k] == if k == i then InFlightSim(s.updates[i], frameTime, decay) else s.updates[k]
  {
    TickedShape(s, i, mid, frameTime, decay, oracle, d, blank);
    var n := |s.updates|;
    forall k | 0 <= k < n
      ensures mid.updates[k] == if k == i then InFlightSim(s.updates[i], frameTime, decay) else s.updates[k]
    {
      assert mid.updates[k] == mid.updates[..n][k];
    }
  }

  /** A visit keeps every record within the launch assumption. */
  lemma VisitKeepsPayload(s: Snapshot, i: nat, mid: Snapshot, t: Snapshot, next: nat, frameTime: real,
                          decay: real, oracle: RandomOracle, d: nat, blank: FireworkUpdate)
    requires |s.fireworks| == |s.updates| == |s.ids| && i < |s.updates|
    requires forall k :: 0 <= k < |s.updates| ==> FinitePayload(s.updates[k])
    requires Ticked(s, i, mid, frameTime, decay, oracle, d, blank)
    requires RemovedOrAdvanced(mid, i, t, next)
    ensures forall k :: 0 <= k < |t.updates| ==> FinitePayload(t.updates[k])
  {
    TickedShape(s, i, mid, frameTime, decay, oracle, d, blank);
    TickedOldSlots(s, i, mid, frameTime, decay, oracle, d, blank);
    forall k | 0 <= k < |mid.updates| ensures FinitePayload(mid.updates[k]) {
      if k >= |s.updates| {
        assert mid.updates[k].kind != PeonyRocket;
      }
    }
  }

  /** A visit leaves the records before the new cursor alive. */
  lemma VisitKeepsAlive(s: Snapshot, i: nat, mid: Snapshot, t: Snapshot, next: nat, frameTime: real,
                        decay: real, oracle: RandomOracle, d: nat, blank: FireworkUpdate)
    requires |s.fireworks| == |s.updates| == |s.ids| && i < |s.updates|
    requires FinitePayload(s.updates[i])
    requires forall k :: 0 <= k < i ==> s.updates[k].life > 0.0
    requires Ticked(s, i, mid, frameTime, decay, oracle, d, blank)
    requires RemovedOrAdvanced(mid, i, t, next)
    ensures forall k :: 0 <= k < next ==> t.updates[k].life > 0.0
  {
    TickedOldSlots(s, i, mid, frameTime, decay, oracle, d, blank);
  }

  /** The bookkeeping of one visit: the visited identity moves from the pending ones to the
      log, and the newborn identities join the pending ones. */
  lemma IdentityStep(visited: seq<nat>, id: nat, rest: seq<nat>, born: seq<nat>, pending: seq<nat>,
                     ids0: seq<nat>, a: nat, b: nat, c: nat)
    requires a <= b <= c && born == Range(b, c)
    requires multiset(pending) == multiset(rest + born)
    requires multiset(visited) + multiset([id] + rest) == multiset(ids0) + multiset(Range(a, b))
    ensures multiset(visited + [id]) + multiset(pending) == multiset(ids0) + multiset(Range(a, c))
  {
    RangeConcat(a, b, c);
    var V, x, R, B := multiset(visited), multiset{id}, multiset(rest), multiset(born);
    assert multiset(pending) == R + B;
    assert multiset(visited + [id]) == V + x;
    assert multiset([id] + rest) == x + R;
    assert multiset(Range(a, c)) == multiset(Range(a, b)) + B;
    assert (V + x) + (R + B) == (V + (x + R)) + B;
  }

  /** A visit logs the visited identity and keeps the identity bookkeeping exact. */
  lemma VisitLogsIdentity(s: Snapshot, i: nat, mid: Snapshot, t: Snapshot, next: nat, visited: seq<nat>,
                          ids0: seq<nat>, next0: nat, frameTime: real,
                          decay: real, oracle: RandomOracle, d: nat, blank: FireworkUpdate)
    requires |s.fireworks| == |s.updates| == |s.ids| && i < |s.updates| && next0 <= s.nextId
    requires FinitePayload(s.updates[i])
    requires multiset(visited) + multiset(s.ids[i..]) == multiset(ids0) + multiset(Range(next0, s.nextId))
    requires Ticked(s, i, mid, frameTime, decay, oracle, d, blank)
    requires RemovedOrAdvanced(mid, i, t, next)
    ensures next0 <= t.nextId && next <= |t.ids|
    ensures multiset(visited + [s.ids[i]]) + multiset(t.ids[next..]) ==
            multiset(ids0) + multiset(Range(next0, t.nextId))
  {
    TickedIds(s, i, mid, frameTime, decay, oracle, d, blank);
    var dead := mid.updates[i].life <= 0.0;
    assert dead ==> t.ids == SwapRemove(mid.ids, i) && next == i;
    assert !dead ==> t.ids == mid.ids && next == i + 1;
    LogsIdentity(s.ids, i, mid.ids, t.ids, next, dead, visited, ids0, next0, s.nextId, mid.nextId);
  }

  /** The identity bookkeeping of a visit, over the identity sequences alone. */
  lemma LogsIdentity(ids: seq<nat>, i: nat, mids: seq<nat>, tids: seq<nat>, next: nat, dead: bool,
                     visited: seq<nat>, ids0: seq<nat>, a: nat, b: nat, c: nat)
    requires i < |ids| && a <= b <= c && mids == ids + Range(b, c)
    requires dead ==> tids == SwapRemove(mids, i) && next == i
    requires !dead ==> tids == mids && next == i + 1
    requires multiset(visited) + multiset(ids[i..]) == multiset(ids0) + multiset(Range(a, b))
    ensures next <= |tids|
    ensures multiset(visited + [ids[i]]) + multiset(tids[next..]) == multiset(ids0) + multiset(Range(a, c))
  {
    PendingAfterRemoval(mids, i, tids, next, dead);
    assert mids[i + 1..] == ids[i + 1..] + Range(b, c);
    assert ids[i..] == [ids[i]] + ids[i + 1..];
    IdentityStep(visited, ids[i], ids[i + 1..], Range(b, c), tids[next..], ids0, a, b, c);
  }

  /** In a pass where every starting record expires without emitting, each visit removes
      the visited record, adds nothing and leaves the cursor at 0. */
  lemma VisitStaysQuiet(s: Snapshot, mid: Snapshot, t: Snapshot, next: nat, next0: nat, frameTime: real,
                        decay: real, oracle: RandomOracle, d: nat, blank: FireworkUpdate)
    requires |s.fireworks| == |s.updates| == |s.ids| && 0 < |s.updates| && s.nextId == next0
    requires FinitePayload(s.updates[0])
    requires forall k :: 0 <= k < |s.updates| ==>
      Attempts(s.updates[k], frameTime) == 0 && s.updates[k].life <= frameTime
    requires Ticked(s, 0, mid, frameTime, decay, oracle, d, blank)
    requires RemovedOrAdvanced(mid, 0, t, next)
    ensures next == 0 && t.nextId == next0
    ensures forall k :: 0 <= k < |t.updates| ==>
      Attempts(t.updates[k], frameTime) == 0 && t.updates[k].life <= frameTime
  {
    TickedShape(s, 0, mid, frameTime, decay, oracle, d, blank);
    TickedOldSlots(s, 0, mid, frameTime, decay, oracle, d, blank);
    assert Attempts(s.updates[0], frameTime) == 0;
    assert mid.updates[0].life <= 0.0;
    forall k | 0 <= k < |t.updates|
      ensures Attempts(t.updates[k], frameTime) == 0 && t.updates[k].life <= frameTime
    {
      if k == 0 {
        assert t.updates[0] == mid.updates[|mid.updates| - 1];
      } else {
        assert t.updates[k] == mid.updates[k];
      }
    }
  }

  /** Each visit keeps the pass invariant, with the visited record's identity logged. */
  lemma VisitPreserves(s: Snapshot, i: nat, mid: Snapshot, t: Snapshot, next: nat, visited: seq<nat>,
                       ids0: seq<nat>, next0: nat, quiet: bool, frameTime: real,
                       decay: real, oracle: RandomOracle, d: nat, blank: FireworkUpdate)
    requires PassInvariant(s, i, visited, ids0, next0, quiet, frameTime) && i < |s.updates|
    requires Ticked(s, i, mid, frameTime, decay, oracle, d, blank)
    requires RemovedOrAdvanced(mid, i, t, next)
    ensures PassInvariant(t, next, visited + [s.ids[i]], ids0, next0, quiet, frameTime)
  {
    VisitKeepsPayload(s, i, mid, t, next, frameTime, decay, oracle, d, blank);
    VisitKeepsAlive(s, i, mid, t, next, frameTime, decay, oracle, d, blank);
    VisitLogsIdentity(s, i, mid, t, next, visited, ids0, next0, frameTime, decay, oracle, d, blank);
    if quiet {
      VisitStaysQuiet(s, mid, t, next, next0, frameTime, decay, oracle, d, blank);
    }
  }

  //------------------------------------------------------------------------------------
  // What each surviving record holds
  //------------------------------------------------------------------------------------

  /** A render record and its simulation record, as one slot of the store holds them. */
  datatype Entry = Entry(firework: Firework, update: FireworkUpdate)

  /** One tick of in-flight update of a slot. */
  function Advance(e: Entry, frameTime: real, decay: real): Entry
  {
    Entry(InFlightRender(e.firework, e.update, frameTime), InFlightSim(e.update, frameTime, decay))
  }

  /** Each slot of `s` holds the entry `origin` records for its identity: advanced one tick
      before the cursor `i`, as it was after it. */
  ghost predicate Tracked(s: Snapshot, i: nat, origin: map<nat, Entry>, frameTime: real, decay: real)
  {
    |s.fireworks| == |s.updates| == |s.ids| &&
    forall k :: 0 <= k < |s.ids| ==>
      s.ids[k] in origin &&
      Entry(s.fireworks[k], s.updates[k]) ==
        if k < i then Advance(origin[s.ids[k]], frameTime, decay) else origin[s.ids[k]]
  }

  /** The entry born with identity `j` in the step from `s` to `mid`. */
  ghost function BornEntry(s: Snapshot, mid: Snapshot, j: nat): Entry
    requires s.nextId <= j < mid.nextId && |s.fireworks| == |s.updates|
    requires |mid.fireworks| == |mid.updates| == |s.fireworks| + (mid.nextId - s.nextId)
  {
    Entry(mid.fireworks[|s.fireworks| + (j - s.nextId)], mid.updates[|s.fireworks| + (j - s.nextId)])
  }

  /** `origin` extended with the entries born in the step from `s` to `mid`, at their birth. */
  ghost function WithBorn(origin: map<nat, Entry>, s: Snapshot, mid: Snapshot): map<nat, Entry>
    requires s.nextId <= mid.nextId && |s.fireworks| == |s.updates|
    requires |mid.fireworks| == |mid.updates| == |s.fireworks| + (mid.nextId - s.nextId)
  {
    origin + map j | s.nextId <= j < mid.nextId :: BornEntry(s, mid, j)
  }

  /** The slots of a ticked store one by one: the old slots keep their identities, slot `i`
      holds its entry advanced one tick, the others are unchanged, and the slots after the old
      end hold the newborns' identities in order. */
  lemma TickedSlots(s: Snapshot, i: nat, mid: Snapshot, frameTime: real,
                    decay: real, oracle: RandomOracle, d: nat, blank: FireworkUpdate)
    requires |s.fireworks| == |s.updates| == |s.ids| && i < |s.ids|
    requires Ticked(s, i, mid, frameTime, decay, oracle, d, blank)
    ensures s.nextId <= mid.nextId
    ensures |mid.fireworks| == |mid.updates| == |mid.ids| == |s.fireworks| + (mid.nextId - s.nextId)
    ensures forall k :: 0 <= k < |s.ids| ==>
      mid.ids[k] == s.ids[k] &&
      Entry(mid.fireworks[k], mid.updates[k]) ==
        if k == i then Advance(Entry(s.fireworks[i], s.updates[i]), frameTime, decay)
        else Entry(s.fireworks[k], s.updates[k])
    ensures forall k :: |s.ids| <= k < |mid.ids| ==> mid.ids[k] == s.nextId + (k - |s.ids|)
  {
    var n := |s.fireworks|;
    var f1 := InFlightRender(s.fireworks[i], s.updates[i], frameTime);
    var u1 := InFlightSim(s.updates[i], frameTime, decay);
    var k := Attempts(s.updates[i], frameTime);
    var fs, us := EmittedRenders(f1, u1, k), EmittedSims(u1, k, oracle, d, blank);
    assert mid.fireworks == s.fireworks[i := f1] + Admit(n, fs);
    assert mid.updates == s.updates[i := u1] + Admit(n, us);
    assert mid.ids == s.ids + Range(s.nextId, mid.nextId);
  }

  /** The tick of slot `i` keeps the slots tracked, one more of them advanced, once the
      newborns are recorded at their birth. */
  lemma TickedTracks(s: Snapshot, i: nat, mid: Snapshot, origin: map<nat, Entry>, frameTime: real,
                     decay: real, oracle: RandomOracle, d: nat, blank: FireworkUpdate)
    requires Tracked(s, i, origin, frameTime, decay) && i < |s.ids|
    requires forall k :: 0 <= k < |s.ids| ==> s.ids[k] < s.nextId
    requires Ticked(s, i, mid, frameTime, decay, oracle, d, blank)
    ensures s.nextId <= mid.nextId
    ensures |mid.fireworks| == |mid.updates| == |s.fireworks| + (mid.nextId - s.nextId)
    ensures Tracked(mid, i + 1, WithBorn(origin, s, mid), frameTime, decay)
    ensures mid.ids == s.ids + Range(s.nextId, mid.nextId)
    ensures s.ids[i] in WithBorn(origin, s, mid) &&
      Advance(WithBorn(origin, s, mid)[s.ids[i]], frameTime, decay).update == mid.updates[i]
    ensures forall id :: id in origin && id < s.nextId ==>
      id in WithBorn(origin, s, mid) && WithBorn(origin, s, mid)[id] == origin[id]
  {
    TickedSlots(s, i, mid, frameTime, decay, oracle, d, blank);
    SlotsTrack(s, i, mid, origin, frameTime, decay);
    assert mid.ids[i] == s.ids[i];
    TickedIds(s, i, mid, frameTime, decay, oracle, d, blank);
  }

  /** The identities of a ticked store: the old ones, then the newborns'. */
  lemma TickedIds(s: Snapshot, i: nat, mid: Snapshot, frameTime: real,
                  decay: real, oracle: RandomOracle, d: nat, blank: FireworkUpdate)
    requires Ticked(s, i, mid, frameTime, decay, oracle, d, blank)
    ensures s.nextId <= mid.nextId && mid.ids == s.ids + Range(s.nextId, mid.nextId)
  {
  }

  /** The tracking step of `TickedTracks`, from the slot facts alone. */
  lemma SlotsTrack(s: Snapshot, i: nat, mid: Snapshot, origin: map<nat, Entry>, frameTime: real, decay: real)
    requires Tracked(s, i, origin, frameTime, decay) && i < |s.ids|
    requires forall k :: 0 <= k < |s.ids| ==> s.ids[k] < s.nextId
    requires s.nextId <= mid.nextId
    requires |mid.fireworks| == |mid.updates| == |mid.ids| == |s.fireworks| + (mid.nextId - s.nextId)
    requires forall k :: 0 <= k < |s.ids| ==>
      mid.ids[k] == s.ids[k] &&
      Entry(mid.fireworks[k], mid.updates[k]) ==
        if k == i then Advance(Entry(s.fireworks[i], s.updates[i]), frameTime, decay)
        else Entry(s.fireworks[k], s.updates[k])
    requires forall k :: |s.ids| <= k < |mid.ids| ==> mid.ids[k] == s.nextId + (k - |s.ids|)
    ensures Tracked(mid, i + 1, WithBorn(origin, s, mid), frameTime, decay)
  {
    var n := |s.ids|;
    var o := WithBorn(origin, s, mid);
    forall k | 0 <= k < |mid.ids|
      ensures mid.ids[k] in o &&
        Entry(mid.fireworks[k], mid.updates[k]) ==
          if k < i + 1 then Advance(o[mid.ids[k]], frameTime, decay) else o[mid.ids[k]]
    {
      if k < n {
        assert o[s.ids[k]] == origin[s.ids[k]];
      } else {
        assert o[mid.ids[k]] == BornEntry(s, mid, mid.ids[k]);
      }
    }
  }

  /** The removal step keeps the slots tracked up to its new cursor. */
  lemma RemovalTracks(mid: Snapshot, i: nat, t: Snapshot, next: nat, origin: map<nat, Entry>,
                      frameTime: real, decay: real)
    requires Tracked(mid, i + 1, origin, frameTime, decay)
    requires RemovedOrAdvanced(mid, i, t, next)
    ensures Tracked(t, next, origin, frameTime, decay)
  {
    if mid.updates[i].life <= 0.0 {
      forall k | 0 <= k < |t.ids|
        ensures t.ids[k] in origin &&
          Entry(t.fireworks[k], t.updates[k]) ==
            if k < next then Advance(origin[t.ids[k]], frameTime, decay) else origin[t.ids[k]]
      {
        var k' := if k == i then |mid.ids| - 1 else k;
        assert t.ids[k] == mid.ids[k'] && t.fireworks[k] == mid.fireworks[k'] && t.updates[k] == mid.updates[k'];
      }
    }
  }

  /** A visited record is still in the store, before the cursor, exactly when it was alive
      after its tick; it is no longer among the pending records, and its identity was handed
      out before the current store. */
  ghost predicate Kept(s: Snapshot, i: nat, visited: seq<nat>, origin: map<nat, Entry>,
                       frameTime: real, decay: real)
  {
    i <= |s.ids| &&
    forall id :: id in visited ==>
      id < s.nextId && id in origin && id !in s.ids[i..] &&
      (id in s.ids[..i] <==> Advance(origin[id], frameTime, decay).update.life > 0.0)
  }

  /** In a sequence of distinct identities, the one at `i` occurs neither before nor after `i`. */
  lemma DistinctAt(ids: seq<nat>, i: nat)
    requires i < |ids| && forall j, k :: 0 <= j < k < |ids| ==> ids[j] != ids[k]
    ensures ids[i] !in ids[..i] && ids[i] !in ids[i + 1..]
  {
    forall k | 0 <= k < i ensures ids[..i][k] != ids[i] { }
    var after := ids[i + 1..];
    forall k | 0 <= k < |after| ensures after[k] != ids[i] { assert after[k] == ids[i + 1 + k]; }
  }

  /** Identities of a run starting at `lo` are at least `lo`. */
  lemma RangeAbove(lo: nat, hi: nat, id: nat)
    requires lo <= hi && id in Range(lo, hi)
    ensures lo <= id
  {
  }

  /** The bookkeeping of `Kept` across one visit, on the identity sequences alone: `pre` and
      `rest` are the identities before and after the visited `x`, `born` the newborns, and
      `pre2`/`pending2` the identities before and from the cursor afterwards. */
  lemma KeptStep(visited: seq<nat>, x: nat, pre: seq<nat>, rest: seq<nat>, born: seq<nat>,
                 pre2: seq<nat>, pending2: seq<nat>, origin: map<nat, Entry>, o: map<nat, Entry>,
                 lo: nat, hi: nat, alive: bool, frameTime: real, decay: real)
    requires lo <= hi && born == Range(lo, hi)
    requires forall id :: id in visited ==>
      id < lo && id in origin && id !in [x] + rest &&
      (id in pre <==> Advance(origin[id], frameTime, decay).update.life > 0.0)
    requires x < lo && x !in pre && x !in rest
    requires x in o && (Advance(o[x], frameTime, decay).update.life > 0.0 <==> alive)
    requires forall id :: id in origin && id < lo ==> id in o && o[id] == origin[id]
    requires pre2 == if alive then pre + [x] else pre
    requires multiset(pending2) == multiset(rest + born)
    ensures forall id :: id in visited + [x] ==>
      id < hi && id in o && id !in pending2 &&
      (id in pre2 <==> Advance(o[id], frameTime, decay).update.life > 0.0)
  {
    forall id | id in visited + [x]
      ensures id < hi && id in o && id !in pending2 &&
        (id in pre2 <==> Advance(o[id], frameTime, decay).update.life > 0.0)
    {
      if id in born { RangeAbove(lo, hi, id); }
      assert id in pending2 <==> id in multiset(rest + born);
      if id != x {
        assert id in visited;
      }
    }
  }

  /** A visit keeps the visited record in the store exactly when it is alive after its tick,
      and moves no earlier visited record. Here `mid` is the store after the tick, whose
      identities are the old ones followed by the newborns', and `o` extends `origin` with
      the tick's result at the visited identity. */
  lemma VisitKeeps(s: Snapshot, i: nat, mid: Snapshot, t: Snapshot, next: nat, visited: seq<nat>,
                   origin: map<nat, Entry>, o: map<nat, Entry>, frameTime: real, decay: real)
    requires i < |s.ids| && s.nextId <= mid.nextId
    requires forall k :: 0 <= k < |s.ids| ==> s.ids[k] < s.nextId
    requires forall j, k :: 0 <= j < k < |s.ids| ==> s.ids[j] != s.ids[k]
    requires mid.ids == s.ids + Range(s.nextId, mid.nextId)
    requires RemovedOrAdvanced(mid, i, t, next)
    requires s.ids[i] in o && Advance(o[s.ids[i]], frameTime, decay).update == mid.updates[i]
    requires forall id :: id in origin && id < s.nextId ==> id in o && o[id] == origin[id]
    requires Kept(s, i, visited, origin, frameTime, decay)
    ensures Kept(t, next, visited + [s.ids[i]], o, frameTime, decay)
  {
    var x := s.ids[i];
    var alive := mid.updates[i].life > 0.0;
    var born := Range(s.nextId, mid.nextId);
    assert mid.ids[i + 1..] == s.ids[i + 1..] + born;
    PendingAfterRemoval(mid.ids, i, t.ids, next, !alive);
    assert mid.ids[..i] == s.ids[..i];
    if alive {
      assert t.ids[..next] == mid.ids[..i + 1] == s.ids[..i] + [x];
    } else {
      assert t.ids[..next] == SwapRemove(mid.ids, i)[..i] == s.ids[..i];
    }
    assert s.ids[i..] == [x] + s.ids[i + 1..];
    DistinctAt(s.ids, i);
    KeptStep(visited, x, s.ids[..i], s.ids[i + 1..], born, t.ids[..next], t.ids[next..],
             origin, o, s.nextId, mid.nextId, alive, frameTime, decay);
  }

  /** The whole invariant of the update pass over the store `s` with cursor `i`: the pass
      invariant, every slot tracked against `origin`, and `origin` holding each starting
      record (`fw0`/`up0`, identities `ids0`) as it was. */
  ghost predicate PassState(s: Snapshot, i: nat, visited: seq<nat>, origin: map<nat, Entry>,
                            fw0: seq<Firework>, up0: seq<FireworkUpdate>, ids0: seq<nat>, next0: nat,
                            quiet: bool, frameTime: real, decay: real)
  {
    PassInvariant(s, i, visited, ids0, next0, quiet, frameTime) &&
    Tracked(s, i, origin, frameTime, decay) &&
    Kept(s, i, visited, origin, frameTime, decay) &&
    |fw0| == |up0| == |ids0| &&
    forall k :: 0 <= k < |ids0| ==>
      ids0[k] < next0 && ids0[k] in origin && origin[ids0[k]] == Entry(fw0[k], up0[k])
  }

  /** The starting records by identity. */
  ghost function Origins(fw: seq<Firework>, up: seq<FireworkUpdate>, ids: seq<nat>): (r: map<nat, Entry>)
    requires |fw| == |up| == |ids|
    requires forall j, k :: 0 <= j < k < |ids| ==> ids[j] != ids[k]
    ensures forall k :: 0 <= k < |ids| ==> ids[k] in r && r[ids[k]] == Entry(fw[k], up[k])
  {
    map k | 0 <= k < |ids| :: ids[k] := Entry(fw[k], up[k])
  }

  /** The invariant holds when the pass starts on a store `s`. */
  lemma PassStarts(s: Snapshot, quiet: bool, frameTime: real, decay: real)
    requires |s.fireworks| == |s.updates| == |s.ids|
    requires forall k :: 0 <= k < |s.ids| ==> s.ids[k] < s.nextId
    requires forall j, k :: 0 <= j < k < |s.ids| ==> s.ids[j] != s.ids[k]
    requires forall k :: 0 <= k < |s.updates| ==> FinitePayload(s.updates[k])
    requires quiet == forall k :: 0 <= k < |s.updates| ==>
      Attempts(s.updates[k], frameTime) == 0 && s.updates[k].life <= frameTime
    ensures PassState(s, 0, [], Origins(s.fireworks, s.updates, s.ids), s.fireworks, s.updates, s.ids,
                      s.nextId, quiet, frameTime, decay)
  {
    assert s.ids[0..] == s.ids;
    assert Range(s.nextId, s.nextId) == [];
  }

  /** When the cursor reaches the end of `s`, every record left is alive and advanced one tick
      from its origin; and in a quiet pass nothing is left. */
  lemma PassEnds(s: Snapshot, visited: seq<nat>, origin: map<nat, Entry>, fw0: seq<Firework>,
                 up0: seq<FireworkUpdate>, ids0: seq<nat>, next0: nat, quiet: bool, frameTime: real,
                 decay: real)
    requires PassState(s, |s.updates|, visited, origin, fw0, up0, ids0, next0, quiet, frameTime, decay)
    ensures forall k :: 0 <= k < |s.updates| ==> FinitePayload(s.updates[k]) && s.updates[k].life > 0.0
    ensures multiset(visited) == multiset(ids0) + multiset(Range(next0, s.nextId))
    ensures next0 <= s.nextId
    ensures forall k :: 0 <= k < |s.ids| ==>
      s.ids[k] in origin && Entry(s.fireworks[k], s.updates[k]) == Advance(origin[s.ids[k]], frameTime, decay)
    ensures forall id :: id in visited ==>
      id in origin && (id in s.ids <==> Advance(origin[id], frameTime, decay).update.life > 0.0)
    ensures quiet ==> s.fireworks == [] && s.updates == []
  {
    assert s.ids[|s.updates|..] == [];
    assert s.ids[..|s.updates|] == s.ids;
  }

  /** One visit of the update pass keeps its invariant and lowers its measure. */
  lemma VisitStep(s: Snapshot, i: nat, mid: Snapshot, t: Snapshot, next: nat, visited: seq<nat>,
                  origin: map<nat, Entry>, fw0: seq<Firework>, up0: seq<FireworkUpdate>, ids0: seq<nat>,
                  next0: nat, quiet: bool, frameTime: real, decay: real, oracle: RandomOracle, d: nat,
                  blank: FireworkUpdate)
    requires PassState(s, i, visited, origin, fw0, up0, ids0, next0, quiet, frameTime, decay)
    requires i < |s.updates| && forall k :: 0 <= k < |s.ids| ==> s.ids[k] < s.nextId
    requires forall j, k :: 0 <= j < k < |s.ids| ==> s.ids[j] != s.ids[k]
    requires Ticked(s, i, mid, frameTime, decay, oracle, d, blank)
    requires RemovedOrAdvanced(mid, i, t, next)
    ensures s.nextId <= mid.nextId
    ensures |mid.fireworks| == |mid.updates| == |s.fireworks| + (mid.nextId - s.nextId)
    ensures PassState(t, next, visited + [s.ids[i]], WithBorn(origin, s, mid), fw0, up0, ids0, next0,
                      quiet, frameTime, decay)
    ensures next <= |t.updates| && RankLess(t.updates[next..], s.updates[i..])
  {
    VisitPreserves(s, i, mid, t, next, visited, ids0, next0, quiet, frameTime, decay, oracle, d, blank);
    VisitDecreases(s, i, mid, t, next, frameTime, decay, oracle, d, blank);
    TickedTracks(s, i, mid, origin, frameTime, decay, oracle, d, blank);
    RemovalTracks(mid, i, t, next, WithBorn(origin, s, mid), frameTime, decay);
    VisitKeeps(s, i, mid, t, next, visited, origin, WithBorn(origin, s, mid), frameTime, decay);
  }

  /** A point of the update pass: the store, the cursor and the random-call number. */
  datatype PassPoint = PassPoint(store: Snapshot, cursor: nat, draws: nat)

  /** One visit of a recorded pass: the point it started from, the store after the tick,
      before the removal, and the identity of the record visited. */
  datatype PassStep = PassStep(from: PassPoint, ticked: Snapshot, id: nat)

  /** The point before step `k` of `steps`, or `last` once every step is taken. */
  function At(steps: seq<PassStep>, k: nat, last: PassPoint): PassPoint
    requires k <= |steps|
  {
    if k < |steps| then steps[k].from else last
  }

  /** The point after step `j` of `steps`. */
  function After(steps: seq<PassStep>, j: nat, last: PassPoint): PassPoint
    requires j < |steps|
  {
    At(steps, j + 1, last)
  }

  /** Step `v` leads to point `q`: the tick of the record under the cursor, three draws per
      append attempt, then its removal or the advance. */
  ghost predicate StepHolds(v: PassStep, q: PassPoint, frameTime: real, decay: real,
                            oracle: RandomOracle, blank: FireworkUpdate)
  {
    Ticked(v.from.store, v.from.cursor, v.ticked, frameTime, decay, oracle, v.from.draws, blank) &&
    v.from.cursor < |v.from.store.ids| && v.id == v.from.store.ids[v.from.cursor] &&
    q.draws == v.from.draws + 3 * Attempts(v.from.store.updates[v.from.cursor], frameTime) &&
    RemovedOrAdvanced(v.ticked, v.from.cursor, q.store, q.cursor)
  }

  /** The identities a recorded pass visited, in the order it visited them. */
  function Logged(steps: seq<PassStep>): (r: seq<nat>)
    ensures |r| == |steps|
    ensures forall k :: 0 <= k < |steps| ==> r[k] == steps[k].id
  {
    if steps == [] then [] else Logged(steps[..|steps| - 1]) + [steps[|steps| - 1].id]
  }

  /** One more visit logs one more identity. */
  lemma LoggedSnoc(steps: seq<PassStep>, v: PassStep)
    ensures Logged(steps + [v]) == Logged(steps) + [v.id]
  {
    assert (steps + [v])[..|steps|] == steps;
  }

  /** The tick of a record has one outcome. */
  lemma TickedUnique(s: Snapshot, i: nat, mid: Snapshot, mid': Snapshot, frameTime: real, decay: real,
                     oracle: RandomOracle, d: nat, blank: FireworkUpdate)
    requires Ticked(s, i, mid, frameTime, decay, oracle, d, blank)
    requires Ticked(s, i, mid', frameTime, decay, oracle, d, blank)
    ensures mid == mid'
  {
  }

  /** A step from a given point has one outcome, and its cursor lies inside the store. */
  lemma StepUnique(v: PassStep, q: PassPoint, w: PassStep, q': PassPoint, frameTime: real, decay: real,
                   oracle: RandomOracle, blank: FireworkUpdate)
    requires StepHolds(v, q, frameTime, decay, oracle, blank)
    requires StepHolds(w, q', frameTime, decay, oracle, blank)
    requires v.from == w.from
    ensures v == w && q == q'
  {
    TickedUnique(v.from.store, v.from.cursor, v.ticked, w.ticked, frameTime, decay, oracle, v.from.draws, blank);
  }

  /** A step starts from a cursor inside the store. */
  lemma StepInside(v: PassStep, q: PassPoint, frameTime: real, decay: real, oracle: RandomOracle,
                   blank: FireworkUpdate)
    requires StepHolds(v, q, frameTime, decay, oracle, blank)
    ensures v.from.cursor < |v.from.store.fireworks|
  {
  }

  /** `steps` is a pass from `start` that has got to `last`, each step leading to the next. */
  ghost predicate Run(start: PassPoint, steps: seq<PassStep>, last: PassPoint, frameTime: real,
                      decay: real, oracle: RandomOracle, blank: FireworkUpdate)
  {
    At(steps, 0, last) == start &&
    forall j {:trigger After(steps, j, last)} :: 0 <= j < |steps| ==>
      StepHolds(steps[j], After(steps, j, last), frameTime, decay, oracle, blank)
  }

  /** A visit extends a pass by one step. */
  lemma RunExtends(start: PassPoint, steps: seq<PassStep>, v: PassStep, q: PassPoint, frameTime: real,
                   decay: real, oracle: RandomOracle, blank: FireworkUpdate)
    requires Run(start, steps, v.from, frameTime, decay, oracle, blank)
    requires StepHolds(v, q, frameTime, decay, oracle, blank)
    ensures Run(start, steps + [v], q, frameTime, decay, oracle, blank)
  {
    var longer := steps + [v];
    forall j | 0 <= j < |longer|
      ensures StepHolds(longer[j], After(longer, j, q), frameTime, decay, oracle, blank)
    {
      if j < |steps| {
        assert longer[j] == steps[j] && After(longer, j, q) == After(steps, j, v.from);
      }
    }
  }

  /** Two passes from the same start agree on their first `k` steps and on the point after
      them: each tick and each removal is determined by the store, the cursor and the
      random-call number. */
  lemma {:induction false} RunAgree(start: PassPoint, a: seq<PassStep>, p: PassPoint, b: seq<PassStep>,
                                    p': PassPoint, k: nat, frameTime: real, decay: real,
                                    oracle: RandomOracle, blank: FireworkUpdate)
    requires Run(start, a, p, frameTime, decay, oracle, blank)
    requires Run(start, b, p', frameTime, decay, oracle, blank)
    requires k <= |a| && k <= |b|
    ensures a[..k] == b[..k] && At(a, k, p) == At(b, k, p')
  {
    if k > 0 {
      var j := k - 1;
      RunAgree(start, a, p, b, p', j, frameTime, decay, oracle, blank);
      StepUnique(a[j], After(a, j, p), b[j], After(b, j, p'), frameTime, decay, oracle, blank);
      assert a[..k] == a[..j] + [a[j]] && b[..k] == b[..j] + [b[j]];
    }
  }

  /** The update pass is determined by its start: two passes from the same point that both
      end with the cursor past the last record took the same steps and reached the same
      store and random-call number. */
  lemma PassUnique(start: PassPoint, a: seq<PassStep>, p: PassPoint, b: seq<PassStep>, p': PassPoint,
                   frameTime: real, decay: real, oracle: RandomOracle, blank: FireworkUpdate)
    requires Run(start, a, p, frameTime, decay, oracle, blank) && p.cursor == |p.store.fireworks|
    requires Run(start, b, p', frameTime, decay, oracle, blank) && p'.cursor == |p'.store.fireworks|
    ensures a == b && p == p'
  {
    if |a| < |b| {
      RunAgree(start, a, p, b, p', |a|, frameTime, decay, oracle, blank);
      StepInside(b[|a|], After(b, |a|, p'), frameTime, decay, oracle, blank);
      assert false;
    } else if |b| < |a| {
      RunAgree(start, a, p, b, p', |b|, frameTime, decay, oracle, blank);
      StepInside(a[|b|], After(a, |b|, p), frameTime, decay, oracle, blank);
      assert false;
    } else {
      RunAgree(start, a, p, b, p', |a|, frameTime, decay, oracle, blank);
    }
  }

  /** The scene's particle store (the globals `Fireworks` and `FireworkUpdates`). */
  class FireworkStore {
    var fireworks: seq<Firework>
    var updates: seq<FireworkUpdate>
    /** How many times `Random` has been called: the position in its stream of draws. */
    var draws: nat
    /** Birth number of the record in each slot, and the next one to hand out. */
    ghost var Ids: seq<nat>
    ghost var NextId: nat

    /** Both sequences have the same length, at most the cap; identities are distinct and
        already handed out. */
    ghost predicate Valid()
      reads this
    {
      |fireworks| == |updates| == |Ids| <= MaxFireworks &&
      (forall k :: 0 <= k < |Ids| ==> Ids[k] < NextId) &&
      (forall j, k :: 0 <= j < k < |Ids| ==> Ids[j] != Ids[k])
    }

    ghost function State(): Snapshot
      reads this
    {
      Snapshot(fireworks, updates, Ids, NextId)
    }

    constructor ()
      ensures Valid() && fireworks == [] && updates == [] && draws == 0 && NextId == 0
    {
      fireworks, updates, draws := [], [], 0;
      Ids, NextId := [], 0;
    }

    /** Appends one aligned pair unless the store is full, in which case nothing changes. */
    method AddFirework(firework: Firework, update: FireworkUpdate) returns (added: bool)
      requires Valid()
      modifies this`fireworks, this`updates, this`Ids, this`NextId
      ensures Valid()
      ensures added <==> old(|fireworks|) < MaxFireworks
      ensures added ==> fireworks == old(fireworks) + [firework] && updates == old(updates) + [update] &&
                        Ids == old(Ids) + [old(NextId)] && NextId == old(NextId) + 1
      ensures !added ==> fireworks == old(fireworks) && updates == old(updates) &&
                         Ids == old(Ids) && NextId == old(NextId)
      ensures Appended(old(State()), State(), [firework], [update])
    {
      assert Admit(|fireworks|, [firework]) == if |fireworks| < MaxFireworks then [firework] else [];
      assert Admit(|fireworks|, [update]) == if |fireworks| < MaxFireworks then [update] else [];
      if |fireworks| >= MaxFireworks {
        return false;
      }
      fireworks := fireworks + [firework];
      updates := updates + [update];
      Ids := Ids + [NextId];
      NextId := NextId + 1;
      return true;
    }

    /** Removes the record at cursor `i` if its life has run out, by moving the last pair
        into slot `i` and popping both sequences; the cursor then stays at `i`, which holds
        the moved record (or is the end when `i` was the last slot). A live record is left
        alone and the cursor steps past it. */
    method RemoveFireworkIfDeadAndMoveToNext(i: nat) returns (next: nat)
      requires Valid() && i < |fireworks|
      modifies this`fireworks, this`updates, this`Ids
      ensures Valid()
      ensures old(updates[i].life) <= 0.0 ==>
        fireworks == SwapRemove(old(fireworks), i) && updates == SwapRemove(old(updates), i) &&
        Ids == SwapRemove(old(Ids), i) && next == i
      ensures old(updates[i].life) <= 0.0 && i == old(|fireworks|) - 1 ==> next == |fireworks|
      ensures old(updates[i].life) > 0.0 ==>
        fireworks == old(fireworks) && updates == old(updates) && Ids == old(Ids) && next == i + 1
      ensures RemovedOrAdvanced(old(State()), i, State(), next)
    {
      if updates[i].life <= 0.0 {
        SwapRemoveDistinct(Ids, i);
        SwapRemoveInPlace(fireworks, i);
        SwapRemoveInPlace(updates, i);
        SwapRemoveInPlace(Ids, i);
        if i + 1 == |fireworks| {
          fireworks := fireworks[..|fireworks| - 1];
          updates := updates[..|updates| - 1];
          Ids := Ids[..|Ids| - 1];
          next := |fireworks|;
          return;
        } else {
          fireworks := fireworks[i := fireworks[|fireworks| - 1]];
          updates := updates[i := updates[|updates| - 1]];
          Ids := Ids[i := Ids[|Ids| - 1]];
        }
        fireworks := fireworks[..|fireworks| - 1];
        updates := updates[..|updates| - 1];
        Ids := Ids[..|Ids| - 1];
        next := i;
      } else {
        next := i + 1;
      }
    }

    /** One call of `Random(lo, hi)`: the next draw of the oracle. */
    method Random(lo: real, hi: real, oracle: RandomOracle) returns (x: real)
      modifies this`draws
      ensures x == oracle(lo, hi, old(draws)) && draws == old(draws) + 1
    {
      x := oracle(lo, hi, draws);
      draws := draws + 1;
    }

    /** One spark attempt from the particle at `i` (a trail star or a comet). */
    method EmitSpark(i: nat, timer: real, blank: FireworkUpdate, oracle: RandomOracle)
      requires Valid() && i < |fireworks|
      modifies this`fireworks, this`updates, this`Ids, this`NextId, this`draws
      ensures Valid() && draws == old(draws) + 3
      ensures i < |fireworks| && fireworks[i] == old(fireworks[i]) && updates[i] == old(updates[i])
      ensures Appended(old(State()), State(), [SparkRender(old(fireworks[i]))],
                       [SparkSim(old(updates[i]).velocity, Jitter(oracle, SparkJitter, old(draws)), timer, blank)])
    {
      var firework := SparkRender(fireworks[i]);
      var jx := Random(-SparkJitter, SparkJitter, oracle);
      var jy := Random(-SparkJitter, SparkJitter, oracle);
      var jz := Random(-SparkJitter, SparkJitter, oracle);
      var update := SparkSim(updates[i].velocity, Vector3(jx, jy, jz), timer, blank);
      var _ := AddFirework(firework, update);
    }

    /** The attempts a trail star at `i` has made so far: `n` sparks, with the timer it
        had on entering the loop (`t`) re-armed `n` times. */
    ghost predicate TrailSoFar(i: nat, f0: seq<Firework>, u0: seq<FireworkUpdate>, ids0: seq<nat>, next0: nat,
                               d0: nat, t: real, n: nat, blank: FireworkUpdate, oracle: RandomOracle)
      reads this
    {
      i < |u0| && i < |f0| && i < |updates| && i < |fireworks| &&
      updates[i] == u0[i].(timer := t + TrailInterval * n as real) &&
      fireworks[i] == f0[i] &&
      draws == d0 + 3 * n &&
      Appended(Snapshot(f0, u0[i := updates[i]], ids0, next0), State(),
               Repeat(SparkRender(f0[i]), n), SparkSims(u0[i].velocity, blank.timer, oracle, d0, n, blank))
    }

    /** One pass of the trail loop: a spark attempt, then the timer re-armed. */
    method TrailStep(i: nat, ghost f0: seq<Firework>, ghost u0: seq<FireworkUpdate>, ghost ids0: seq<nat>,
                     ghost next0: nat, ghost d0: nat, ghost t: real, ghost n: nat,
                     blank: FireworkUpdate, oracle: RandomOracle)
      requires Valid() && TrailSoFar(i, f0, u0, ids0, next0, d0, t, n, blank, oracle)
      modifies this`fireworks, this`updates, this`Ids, this`NextId, this`draws
      ensures Valid() && TrailSoFar(i, f0, u0, ids0, next0, d0, t, n + 1, blank, oracle)
    {
      ghost var s := State();
      ghost var base := Snapshot(f0, u0[i := updates[i]], ids0, next0);
      ghost var spark := SparkRender(f0[i]);
      ghost var v := u0[i].velocity;
      EmitSpark(i, blank.timer, blank, oracle);
      AppendedThen(base, s, State(), Repeat(spark, n), SparkSims(v, blank.timer, oracle, d0, n, blank),
                   [spark], [SparkSim(v, Jitter(oracle, SparkJitter, d0 + 3 * n), blank.timer, blank)]);
      RepeatSnoc(spark, n);
      SparkSimsSnoc(v, blank.timer, oracle, d0, n, blank);
      ghost var s2 := State();
      updates := updates[i := updates[i].(timer := updates[i].timer + TrailInterval)];
      AppendedSetSim(base, s2, Repeat(spark, n + 1), SparkSims(v, blank.timer, oracle, d0, n + 1, blank), i, updates[i]);
    }

    /** The trail-star timer: one tick off the timer, then one spark attempt and one
        re-arm interval per pass of `while (timer <= 0)`, whether or not the spark got in. */
    method UpdateTrail(i: nat, frameTime: real, blank: FireworkUpdate, oracle: RandomOracle)
      requires Valid() && i < |fireworks|
      modifies this`fireworks, this`updates, this`Ids, this`NextId, this`draws
      ensures Valid()
      ensures var t := old(updates[i]).timer - frameTime;
        var k := TrailAttempts(t);
        draws == old(draws) + 3 * k &&
        Appended(Snapshot(old(fireworks), old(updates)[i := old(updates[i]).(timer := t + TrailInterval * k as real)],
                          old(Ids), old(NextId)),
                 State(),
                 Repeat(SparkRender(old(fireworks[i])), k),
                 SparkSims(old(updates[i]).velocity, blank.timer, oracle, old(draws), k, blank))
      ensures var t := old(updates[i]).timer - frameTime;
        i < |fireworks| && fireworks[i] == old(fireworks[i]) &&
        updates[i] == old(updates[i]).(timer := t + TrailInterval * TrailAttempts(t) as real)
    {
      ghost var t := updates[i].timer - frameTime;
      ghost var n: nat := 0;
      updates := updates[i := updates[i].(timer := updates[i].timer - frameTime)];
      AppendedNothing(State());
      while updates[i].timer <= 0.0
        invariant Valid() && TrailSoFar(i, old(fireworks), old(updates), old(Ids), old(NextId), old(draws), t, n, blank, oracle)
        invariant TrailAttempts(t) == n + TrailAttempts(updates[i].timer)
        decreases TrailAttempts(updates[i].timer)
      {
        ghost var before := updates[i].timer;
        TrailStep(i, old(fireworks), old(updates), old(Ids), old(NextId), old(draws), t, n, blank, oracle);
        assert updates[i].timer == before + TrailInterval;
        n := n + 1;
      }
      assert TrailAttempts(updates[i].timer) == 0;
      assert n == TrailAttempts(t);
      assert updates[i] == old(updates[i]).(timer := t + TrailInterval * n as real);
      assert old(updates)[i := updates[i]] ==
             old(updates)[i := old(updates[i]).(timer := t + TrailInterval * TrailAttempts(t) as real)];
    }

    /** One burst-star attempt from the rocket at `i` under `rule`. */
    method EmitBurstStar(i: nat, rule: BurstRule, blank: FireworkUpdate, oracle: RandomOracle)
      requires Valid() && i < |fireworks|
      modifies this`fireworks, this`updates, this`Ids, this`NextId, this`draws
      ensures Valid() && draws == old(draws) + 3
      ensures i < |fireworks| && fireworks[i] == old(fireworks[i]) && updates[i] == old(updates[i])
      ensures Appended(old(State()), State(), [BurstRender(old(fireworks[i]), old(updates[i]))],
                       [BurstSim(rule, old(updates[i]).velocity, Jitter(oracle, rule.jitter, old(draws)), blank)])
    {
      var firework := BurstRender(fireworks[i], updates[i]);
      var jx := Random(-rule.jitter, rule.jitter, oracle);
      var jy := Random(-rule.jitter, rule.jitter, oracle);
      var jz := Random(-rule.jitter, rule.jitter, oracle);
      var update := BurstSim(rule, updates[i].velocity, Vector3(jx, jy, jz), blank);
      var _ := AddFirework(firework, update);
    }

    /** The attempts a rocket at `i` has made so far in its burst: `j` stars. */
    ghost predicate BurstSoFar(i: nat, s0: Snapshot, d0: nat, rule: BurstRule, j: nat,
                               blank: FireworkUpdate, oracle: RandomOracle)
      reads this
    {
      i < |s0.fireworks| && i < |s0.updates| && i < |fireworks| && i < |updates| &&
      fireworks[i] == s0.fireworks[i] && updates[i] == s0.updates[i] &&
      draws == d0 + 3 * j &&
      Appended(s0, State(), Repeat(BurstRender(s0.fireworks[i], s0.updates[i]), j),
               BurstSims(rule, s0.updates[i].velocity, oracle, d0, j, blank))
    }

    /** One pass of the burst loop: one star attempt. */
    method BurstStep(i: nat, ghost s0: Snapshot, ghost d0: nat, rule: BurstRule, ghost j: nat,
                     blank: FireworkUpdate, oracle: RandomOracle)
      requires Valid() && BurstSoFar(i, s0, d0, rule, j, blank, oracle)
      requires |s0.fireworks| == |s0.updates|
      modifies this`fireworks, this`updates, this`Ids, this`NextId, this`draws
      ensures Valid() && BurstSoFar(i, s0, d0, rule, j + 1, blank, oracle)
    {
      ghost var s := State();
      ghost var star := BurstRender(s0.fireworks[i], s0.updates[i]);
      ghost var v := s0.updates[i].velocity;
      EmitBurstStar(i, rule, blank, oracle);
      AppendedThen(s0, s, State(), Repeat(star, j), BurstSims(rule, v, oracle, d0, j, blank),
                   [star], [BurstSim(rule, v, Jitter(oracle, rule.jitter, d0 + 3 * j), blank)]);
      RepeatSnoc(star, j);
      BurstSimsSnoc(rule, v, oracle, d0, j, blank);
    }

    /** A rocket's burst: `for (i = 0; i < payloadIntA; ++i)` one star attempt under `rule`. */
    method Burst(i: nat, rule: BurstRule, blank: FireworkUpdate, oracle: RandomOracle)
      requires Valid() && i < |fireworks|
      modifies this`fireworks, this`updates, this`Ids, this`NextId, this`draws
      ensures Valid()
      ensures i < |fireworks| && fireworks[i] == old(fireworks[i]) && updates[i] == old(updates[i])
      ensures var k := BurstCount(old(updates[i]));
        draws == old(draws) + 3 * k &&
        Appended(old(State()), State(),
                 Repeat(BurstRender(old(fireworks[i]), old(updates[i])), k),
                 BurstSims(rule, old(updates[i]).velocity, oracle, old(draws), k, blank))
    {
      var j := 0;
      AppendedNothing(State());
      while j < updates[i].payloadIntA
        invariant Valid() && BurstSoFar(i, old(State()), old(draws), rule, j, blank, oracle)
        invariant 0 <= j <= BurstCount(old(updates[i]))
      {
        BurstStep(i, old(State()), old(draws), rule, j, blank, oracle);
        j := j + 1;
      }
    }

    /** The in-place part of a particle's tick: it moves by its velocity, falls, ages, and a
        star fades, shrinks and slows down. */
    method Fly(i: nat, frameTime: real, decay: real)
      requires Valid() && i < |fireworks|
      modifies this`fireworks, this`updates
      ensures Valid()
      ensures fireworks == old(fireworks)[i := InFlightRender(old(fireworks[i]), old(updates[i]), frameTime)]
      ensures updates == old(updates)[i := InFlightSim(old(updates[i]), frameTime, decay).(timer := old(updates[i]).timer)]
    {
      // Movement with gravity, then one tick less to live
      fireworks := fireworks[i := fireworks[i].(position := Add(fireworks[i].position, Scale(updates[i].velocity, frameTime)))];
      updates := updates[i := updates[i].(velocity := updates[i].velocity.(y := updates[i].velocity.y + Gravity * frameTime))];
      updates := updates[i := updates[i].(life := updates[i].life - frameTime)];
      // Simple stars and trail stars fade, shrink and slow down
      if updates[i].kind == StarSimple || updates[i].kind == StarSmallTrail {
        fireworks := fireworks[i := fireworks[i].(colour := fireworks[i].colour.(a := fireworks[i].colour.a - StarFadeRate * frameTime))];
        fireworks := fireworks[i := fireworks[i].(scale := fireworks[i].scale - StarShrinkRate * frameTime)];
        updates := updates[i := updates[i].(velocity := Scale(updates[i].velocity, decay))];
      }
    }

    /** One particle's tick, everything but its removal: the in-place update, the trail
        loop of a trail star, the spark of a comet, and the burst of a rocket whose life has
        run out. The emissions are attempted in order and admitted while there is room. */
    method UpdateFirework(i: nat, frameTime: real, decay: real, blank: FireworkUpdate, oracle: RandomOracle)
      requires Valid() && i < |fireworks|
      modifies this`fireworks, this`updates, this`Ids, this`NextId, this`draws
      ensures Valid()
      ensures var f1 := InFlightRender(old(fireworks[i]), old(updates[i]), frameTime);
        var u1 := InFlightSim(old(updates[i]), frameTime, decay);
        var k := Attempts(old(updates[i]), frameTime);
        draws == old(draws) + 3 * k &&
        Appended(Snapshot(old(fireworks)[i := f1], old(updates)[i := u1], old(Ids), old(NextId)), State(),
                 EmittedRenders(f1, u1, k), EmittedSims(u1, k, oracle, old(draws), blank))
      ensures Ticked(old(State()), i, State(), frameTime, decay, oracle, old(draws), blank)
    {
      ghost var u0 := updates[i];
      Fly(i, frameTime, decay);
      Emit(i, u0, frameTime, decay, blank, oracle);
    }

    /** The emitting half of a record's tick, run once slot `i` has flown (its timer not
        yet advanced): trail sparks, a comet spark, or the burst at the end of a rocket's life. */
    method Emit(i: nat, ghost u0: FireworkUpdate, frameTime: real, decay: real, blank: FireworkUpdate,
                oracle: RandomOracle)
      requires Valid() && i < |fireworks|
      requires updates[i] == InFlightSim(u0, frameTime, decay).(timer := u0.timer)
      modifies this`fireworks, this`updates, this`Ids, this`NextId, this`draws
      ensures Valid()
      ensures var u1 := InFlightSim(u0, frameTime, decay);
        var k := Attempts(u0, frameTime);
        draws == old(draws) + 3 * k &&
        Appended(Snapshot(old(fireworks), old(updates)[i := u1], old(Ids), old(NextId)), State(),
                 EmittedRenders(old(fireworks[i]), u1, k), EmittedSims(u1, k, oracle, old(draws), blank))
    {
      if updates[i].kind == StarSmallTrail {
        EmitTrail(i, u0, frameTime, decay, blank, oracle);
      } else if updates[i].kind == CometRocket {
        EmitComet(i, u0, frameTime, decay, blank, oracle);
      } else {
        EmitBurst(i, u0, frameTime, decay, blank, oracle);
      }
    }

    /** A trail star's emissions: its timer's sparks. */
    method EmitTrail(i: nat, ghost u0: FireworkUpdate, frameTime: real, decay: real, blank: FireworkUpdate,
                     oracle: RandomOracle)
      requires Valid() && i < |fireworks|
      requires updates[i] == InFlightSim(u0, frameTime, decay).(timer := u0.timer)
      requires u0.kind == StarSmallTrail
      modifies this`fireworks, this`updates, this`Ids, this`NextId, this`draws
      ensures Valid()
      ensures var u1 := InFlightSim(u0, frameTime, decay);
        var k := Attempts(u0, frameTime);
        draws == old(draws) + 3 * k &&
        Appended(Snapshot(old(fireworks), old(updates)[i := u1], old(Ids), old(NextId)), State(),
                 EmittedRenders(old(fireworks[i]), u1, k), EmittedSims(u1, k, oracle, old(draws), blank))
    {
      UpdateTrail(i, frameTime, blank, oracle);
    }

    /** A comet's emission: one spark per tick. */
    method EmitComet(i: nat, ghost u0: FireworkUpdate, frameTime: real, decay: real, blank: FireworkUpdate,
                     oracle: RandomOracle)
      requires Valid() && i < |fireworks|
      requires updates[i] == InFlightSim(u0, frameTime, decay).(timer := u0.timer)
      requires u0.kind == CometRocket
      modifies this`fireworks, this`updates, this`Ids, this`NextId, this`draws
      ensures Valid()
      ensures var u1 := InFlightSim(u0, frameTime, decay);
        var k := Attempts(u0, frameTime);
        draws == old(draws) + 3 * k &&
        Appended(Snapshot(old(fireworks), old(updates)[i := u1], old(Ids), old(NextId)), State(),
                 EmittedRenders(old(fireworks[i]), u1, k), EmittedSims(u1, k, oracle, old(draws), blank))
    {
      ghost var f1, u1 := fireworks[i], InFlightSim(u0, frameTime, decay);
      ghost var d0 := draws;
      EmitSpark(i, CometSparkTimer, blank, oracle);
      assert Repeat(SparkRender(f1), 1) == [SparkRender(f1)];
      assert SparkSims(u1.velocity, CometSparkTimer, oracle, d0, 1, blank) ==
             [SparkSim(u1.velocity, Jitter(oracle, SparkJitter, d0), CometSparkTimer, blank)];
    }

    /** Any other record's emissions: the burst its kind registers, once its life is spent. */
    method EmitBurst(i: nat, ghost u0: FireworkUpdate, frameTime: real, decay: real, blank: FireworkUpdate,
                     oracle: RandomOracle)
      requires Valid() && i < |fireworks|
      requires updates[i] == InFlightSim(u0, frameTime, decay).(timer := u0.timer)
      requires u0.kind != StarSmallTrail && u0.kind != CometRocket
      modifies this`fireworks, this`updates, this`Ids, this`NextId, this`draws
      ensures Valid()
      ensures var u1 := InFlightSim(u0, frameTime, decay);
        var k := Attempts(u0, frameTime);
        draws == old(draws) + 3 * k &&
        Appended(Snapshot(old(fireworks), old(updates)[i := u1], old(Ids), old(NextId)), State(),
                 EmittedRenders(old(fireworks[i]), u1, k), EmittedSims(u1, k, oracle, old(draws), blank))
    {
      if updates[i].life <= 0.0 {
        var rule := BurstRuleOf(updates[i]);
        if rule.Some? {
          ghost var f := fireworks[i];
          ghost var u1 := updates[i];
          ghost var k := BurstCount(u1);
          Burst(i, rule.value, blank, oracle);
          assert Attempts(u0, frameTime) == k;
          assert EmittedRenders(f, u1, k) == Repeat(BurstRender(f, u1), k);
          assert EmittedSims(u1, k, oracle, old(draws), blank) == BurstSims(rule.value, u1.velocity, oracle, old(draws), k, blank);
        } else {
          AppendedNothing(State());
        }
      } else {
        AppendedNothing(State());
      }
    }

    /** One visit of the update pass: the tick of slot `i`, then removal or advance. */
    method Visit(i: nat, frameTime: real, decay: real, blank: FireworkUpdate, oracle: RandomOracle,
                 ghost start: PassPoint, ghost steps: seq<PassStep>)
      returns (next: nat, ghost mid: Snapshot)
      requires Valid() && i < |fireworks|
      requires Run(start, steps, PassPoint(State(), i, draws), frameTime, decay, oracle, blank)
      modifies this`fireworks, this`updates, this`Ids, this`NextId, this`draws
      ensures Valid()
      ensures Ticked(old(State()), i, mid, frameTime, decay, oracle, old(draws), blank)
      ensures draws == old(draws) + 3 * Attempts(old(updates[i]), frameTime)
      ensures RemovedOrAdvanced(mid, i, State(), next)
      ensures Run(start, steps + [PassStep(PassPoint(old(State()), i, old(draws)), mid, old(Ids[i]))],
                  PassPoint(State(), next, draws), frameTime, decay, oracle, blank)
    {
      UpdateFirework(i, frameTime, decay, blank, oracle);
      mid := State();
      next := RemoveFireworkIfDeadAndMoveToNext(i);
      RunExtends(start, steps, PassStep(PassPoint(old(State()), i, old(draws)), mid, old(Ids[i])),
                 PassPoint(State(), next, draws), frameTime, decay, oracle, blank);
    }

    /** One frame's update pass (`UpdateFireworks`): every record is visited exactly once,
        including those appended during the pass and those moved into a vacated slot; it
        leaves no expired record behind, keeps the store aligned and within the cap, and a
        store whose every record expires this tick without emitting ends empty. `steps`
        records the pass visit by visit, which fixes every birth and the final store, and
        `visited` is the identities of those visits. */
    method UpdateFireworks(frameTime: real, decay: real, blank: FireworkUpdate, oracle: RandomOracle)
      returns (ghost visited: seq<nat>, ghost origin: map<nat, Entry>, ghost steps: seq<PassStep>)
      requires Valid()
      requires forall k :: 0 <= k < |updates| ==> FinitePayload(updates[k])
      modifies this`fireworks, this`updates, this`Ids, this`NextId, this`draws
      ensures Valid()
      ensures forall k :: 0 <= k < |updates| ==> FinitePayload(updates[k])
      ensures forall k :: 0 <= k < |updates| ==> updates[k].life > 0.0
      ensures old(NextId) <= NextId
      ensures multiset(visited) == multiset(old(Ids)) + multiset(Range(old(NextId), NextId))
      ensures forall k :: 0 <= k < |old(Ids)| ==>
        old(Ids)[k] in origin && origin[old(Ids)[k]] == Entry(old(fireworks)[k], old(updates)[k])
      ensures forall k :: 0 <= k < |Ids| ==>
        Ids[k] in origin && Entry(fireworks[k], updates[k]) == Advance(origin[Ids[k]], frameTime, decay)
      ensures forall id :: id in visited ==>
        id in origin && (id in Ids <==> Advance(origin[id], frameTime, decay).update.life > 0.0)
      ensures (forall k :: 0 <= k < |old(updates)| ==>
                 Attempts(old(updates)[k], frameTime) == 0 && old(updates)[k].life <= frameTime) ==>
              fireworks == [] && updates == []
      ensures Run(PassPoint(old(State()), 0, old(draws)), steps, PassPoint(State(), |fireworks|, draws),
                  frameTime, decay, oracle, blank)
      ensures visited == Logged(steps)
    {
      ghost var quiet := forall k :: 0 <= k < |updates| ==>
        Attempts(updates[k], frameTime) == 0 && updates[k].life <= frameTime;
      var i: nat := 0;
      visited := [];
      origin := Origins(fireworks, updates, Ids);
      PassStarts(State(), quiet, frameTime, decay);
      steps := [];
      while i != |fireworks|
        invariant Valid()
        invariant PassState(State(), i, visited, origin, old(fireworks), old(updates), old(Ids), old(NextId),
                            quiet, frameTime, decay)
        invariant Run(PassPoint(old(State()), 0, old(draws)), steps, PassPoint(State(), i, draws),
                      frameTime, decay, oracle, blank)
        invariant visited == Logged(steps)
        decreases RankCount(updates[i..], 2), RankCount(updates[i..], 1), RankCount(updates[i..], 0)
      {
        ghost var s := State();
        ghost var d := draws;
        var next, mid := Visit(i, frameTime, decay, blank, oracle, PassPoint(old(State()), 0, old(draws)), steps);
        VisitStep(s, i, mid, State(), next, visited, origin, old(fireworks), old(updates), old(Ids), old(NextId),
                  quiet, frameTime, decay, oracle, d, blank);
        LoggedSnoc(steps, PassStep(PassPoint(s, i, d), mid, s.ids[i]));
        steps := steps + [PassStep(PassPoint(s, i, d), mid, s.ids[i])];
        visited := visited + [s.ids[i]];
        origin := WithBorn(origin, s, mid);
        i := next;
      }
      PassEnds(State(), visited, origin, old(fireworks), old(updates), old(Ids), old(NextId), quiet, frameTime, decay);
    }
  }
}
