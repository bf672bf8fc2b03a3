/**
 A run in which a file is left behind although nobody died: three saves of one row cross, so one of them stamps a file on the strength of a
 mention the second wrote and the third took away, and the release of the third has read the stamp before.
 */
module LostFile {
  import opened Outcomes
  import opened UploadProtocol

  /** The one file there is, under the saves 1, 2 and 3 of the row 7. */
  function Midway(claimedAt: Option<nat>, mentions: map<(nat, nat), nat>, commits: nat, workers: map<nat, Worker>, stamps: set<(nat, nat)>): System {
    System(map[0 := Row(0, claimedAt)], {0}, mentions, commits, workers, {0}, stamps, false, {})
  }

  function Naming(todo: set<nat>, stamped: map<nat, nat>, settled: set<nat>, written: set<nat>): Worker {
    Save(7, {0}, {}, {}, map[], {}, {}, todo, stamped, settled, written)
  }

  function Dropping(drop: set<nat>, removed: set<nat>): Worker {
    Save(7, {}, {}, {}, map[0 := 0], drop, removed, {}, map[], {}, {})
  }

  const RELYING := Naming({}, map[0 := 2], {0}, {})

  const S1 := Midway(None, map[], 0, map[], {})
  const S2 := Midway(None, map[], 0, map[1 := Naming({0}, map[], {}, {})], {})
  const S3 := Midway(None, map[], 0, map[1 := Naming({0}, map[], {}, {}), 2 := Naming({0}, map[], {}, {})], {})
  const S4 := Midway(None, map[], 0, map[1 := Naming({0}, map[], {}, {}), 2 := Naming({}, map[0 := 1], {}, {})], {(0, 1)})
  const S5 := Midway(None, map[], 0, map[1 := Naming({0}, map[], {}, {}), 2 := Naming({}, map[0 := 1], {0}, {0})], {(0, 1)})
  const S6 := Midway(Some(1), map[(7, 0) := 0], 1, map[1 := Naming({0}, map[], {}, {}), 2 := Handed({})], {(0, 1)})
  const S7 := Midway(Some(1), map[(7, 0) := 0], 1, map[1 := Naming({}, map[0 := 2], {}, {}), 2 := Handed({})], {(0, 1), (0, 2)})
  const S8 := Midway(Some(1), map[(7, 0) := 0], 1, map[1 := RELYING, 2 := Handed({})], {(0, 1), (0, 2)})
  const S9 := Midway(Some(1), map[(7, 0) := 0], 1, map[1 := RELYING, 2 := Handed({}), 3 := Dropping({0}, {})], {(0, 1), (0, 2)})
  const S10 := Midway(Some(1), map[(7, 0) := 0], 1, map[1 := RELYING, 2 := Handed({}), 3 := Dropping({}, {0})], {(0, 1), (0, 2)})
  const S11 := Midway(Some(1), map[], 2, map[1 := RELYING, 2 := Handed({}), 3 := Handed({0})], {(0, 1), (0, 2)})
  const S12 := Midway(Some(1), map[], 2, map[1 := RELYING, 2 := Handed({}), 3 := Pass(map[0 := Some(1)], {}, {})], {(0, 1), (0, 2)})

  ghost predicate SameFields(a: Worker, b: Worker) {
    && a.Save? && b.Save? && a.owner == b.owner && a.named == b.named && a.keys == b.keys && a.extra == b.extra && a.held == b.held
    && a.drop == b.drop && a.removed == b.removed && a.todo == b.todo && a.stamped == b.stamped && a.settled == b.settled && a.written == b.written
  }

  ghost predicate Same(s: System, t: System, who: nat) {
    && s.files == t.files && s.bucket == t.bucket && s.mentions == t.mentions && s.commits == t.commits && s.known == t.known
    && s.stamps == t.stamps && s.failed == t.failed && s.missed == t.missed
    && who in s.workers && who in t.workers && s.workers - {who} == t.workers - {who}
    && (SameFields(s.workers[who], t.workers[who]) || s.workers[who] == t.workers[who])
  }

  lemma SameIsEqual(s: System, t: System, who: nat)
    requires Same(s, t, who)
    ensures s == t
  {
    assert s.workers == t.workers by {
      assert forall p :: p in s.workers <==> p == who || p in s.workers - {who};
      assert forall p <- s.workers :: p != who ==> s.workers[p] == (s.workers - {who})[p];
      assert forall p <- t.workers :: p != who ==> t.workers[p] == (t.workers - {who})[p];
    }
  }

  lemma HeldOf(s: System, o: nat)
    ensures forall f: nat :: f in Held(s, o) <==> (o, f) in s.mentions
    ensures forall f <- Held(s, o) :: Held(s, o)[f] == s.mentions[(o, f)]
  {
  }

  lemma NoneHeld(s: System, o: nat)
    requires s.mentions == map[]
    ensures Held(s, o) == map[]
  {
  }

  lemma RenamedOf(s: System, w: Worker)
    requires w.Save?
    ensures forall m: (nat, nat) :: m in Renamed(s, w) <==>
              ((m in s.mentions || (m.0 == w.owner && m.1 in w.written)) && (m.0 != w.owner || m.1 !in w.removed))
    ensures forall m <- Renamed(s, w) :: Renamed(s, w)[m] == if m in s.mentions then s.mentions[m] else s.commits
  {
    hide Refused;
  }

  lemma Step1()
    ensures Apply(S1, Begin(1, 7, {0}, {}, {})) == S2
  {
    var t := Apply(S1, Begin(1, 7, {0}, {}, {}));
    NoneHeld(S1, 7);
    hide Held;
    assert Held(S1, 7) == S2.workers[1].held;
    assert 1 in t.workers && SameFields(t.workers[1], S2.workers[1]);
    assert t.known == S2.known && t.workers == S2.workers;
  }

  lemma Step2()
    ensures Apply(S2, Begin(2, 7, {0}, {}, {})) == S3
  {
    var t := Apply(S2, Begin(2, 7, {0}, {}, {}));
    NoneHeld(S2, 7);
    hide Held;
    assert Held(S2, 7) == S3.workers[2].held;
    assert 2 in t.workers && SameFields(t.workers[2], S3.workers[2]);
    assert t.known == S3.known && t.workers == S3.workers;
  }

  lemma Step3()
    ensures Apply(S3, Stamp(2, 0, 1)) == S4
  {
    SameIsEqual(Apply(S3, Stamp(2, 0, 1)), S4, 2);
  }

  lemma Step4()
    ensures Apply(S4, Write(2, 0)) == S5
  {
    SameIsEqual(Apply(S4, Write(2, 0)), S5, 2);
  }

  lemma Step5()
    ensures Apply(S5, Commit(2)) == S6
  {
    var t := Apply(S5, Commit(2));
    RenamedOf(S5, S5.workers[2]);
    assert Renamed(S5, S5.workers[2]) == S6.mentions && Lost(S5, 2) == {};
    hide Renamed, Lost;
    assert t.files == S6.files && t.missed == S6.missed && t.workers[2] == S6.workers[2];
    assert t.workers == S6.workers;
  }

  lemma Step6()
    ensures Apply(S6, Stamp(1, 0, 2)) == S7
  {
    SameIsEqual(Apply(S6, Stamp(1, 0, 2)), S7, 1);
  }

  lemma Step7()
    ensures Apply(S7, Write(1, 0)) == S8
  {
    SameIsEqual(Apply(S7, Write(1, 0)), S8, 1);
  }

  lemma Step8()
    ensures Apply(S8, Begin(3, 7, {}, {}, {})) == S9
  {
    var t := Apply(S8, Begin(3, 7, {}, {}, {}));
    HeldOf(S8, 7);
    hide Held;
    assert Held(S8, 7) == S9.workers[3].held;
    assert 3 in t.workers && SameFields(t.workers[3], S9.workers[3]);
    assert t.known == S9.known && t.workers == S9.workers;
  }

  lemma Step9()
    ensures Apply(S9, Unmention(3, 0)) == S10
  {
    SameIsEqual(Apply(S9, Unmention(3, 0)), S10, 3);
  }

  lemma Step10()
    ensures Apply(S10, Commit(3)) == S11
  {
    var t := Apply(S10, Commit(3));
    RenamedOf(S10, S10.workers[3]);
    assert Renamed(S10, S10.workers[3]) == S11.mentions && Lost(S10, 3) == {};
    hide Renamed, Lost;
    assert t.files == S11.files && t.missed == S11.missed && t.workers[3] == S11.workers[3];
    assert t.workers == S11.workers;
  }

  lemma Step11()
    ensures Apply(S11, Read(3)) == S12
  {
    SameIsEqual(Apply(S11, Read(3)), S12, 3);
  }

  const EVENTS: seq<Event> := [
    Upload(0, 0), Begin(1, 7, {0}, {}, {}), Begin(2, 7, {0}, {}, {}), Stamp(2, 0, 1), Write(2, 0), Commit(2),
    Stamp(1, 0, 2), Write(1, 0), Begin(3, 7, {}, {}, {}), Unmention(3, 0), Commit(3), Read(3), Commit(1)]

  lemma OneOn(s: System, k: nat, t: System)
    requires Inv(s) && k < |EVENTS| && Apply(s, EVENTS[k]) == t
    ensures Inv(t) && Run(s, EVENTS[k..]) == Run(t, EVENTS[k + 1..])
  {
    hide Inv, Apply;
    EventKeepsInv(s, EVENTS[k]);
    assert EVENTS[k..][0] == EVENTS[k] && EVENTS[k..][1..] == EVENTS[k + 1..];
  }

  lemma Reaches()
    ensures Inv(S12) && Run(START, EVENTS) == Apply(S12, Commit(1))
  {
    assert Inv(START) && Apply(START, Upload(0, 0)) == S1;
    hide Inv, Apply;
    assert EVENTS[0..] == EVENTS && EVENTS[13..] == [];
    OneOn(START, 0, S1);
    Step1();
    OneOn(S1, 1, S2);
    Step2();
    OneOn(S2, 2, S3);
    Step3();
    OneOn(S3, 3, S4);
    Step4();
    OneOn(S4, 4, S5);
    Step5();
    OneOn(S5, 5, S6);
    Step6();
    OneOn(S6, 6, S7);
    Step7();
    OneOn(S7, 7, S8);
    Step8();
    OneOn(S8, 8, S9);
    Step9();
    OneOn(S9, 9, S10);
    Step10();
    OneOn(S10, 10, S11);
    Step11();
    OneOn(S11, 11, S12);
    OneOn(S12, 12, Apply(S12, Commit(1)));
  }

  lemma IsLost()
    ensures Written(S12, RELYING) && 0 in Lost(S12, 1) && Apply(S12, Commit(1)) == Committed(S12, 1)
  {
    assert Added(RELYING) == {0};
    assert S12.workers[1] == RELYING;
  }

  lemma CommitFails(s: System, who: nat)
    ensures Committed(s, who).failed == s.failed
  {
    hide Written, Lost, Renamed, Given;
  }

  /** Nobody died, and the file is stored, was named, has no mention, and nobody is left to delete it. */
  lemma CrossingSavesLoseAFile()
    ensures var t := Run(START, EVENTS);
            && !t.failed && 0 in t.files && t.files[0].claimedAt.Some? && Unmentioned(t, 0)
            && (forall p <- t.workers :: !OnDuty(t, t.workers[p], 0))
  {
    Reaches();
    IsLost();
    hide Safe, NothingLeft, NoneOver, Lost, Written, Committed, Unmentioned, OnDuty, Run;
    assert S12.workers[1] == RELYING && !S12.failed;
    SaveLosesExactly(S12, 1, 0);
    CommitFails(S12, 1);
  }
}
