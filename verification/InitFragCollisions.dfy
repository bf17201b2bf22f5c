/** What a colliding redirect URL does to the init-fragment cache. */
module InitFragCollisions {
  import opened Common
  import opened CacheBuffers
  import opened InitFragCache
  import opened InitFragRuns

  lemma RunThree<B>(c: Cache<B>, slots: int, x: Op<B>, y: Op<B>, z: Op<B>)
    ensures Run(c, slots, [x, y, z]) == Do(Do(Do(c, slots, x), slots, y), slots, z)
  {
    assert [x, y, z][1..] == [y, z] && [y, z][1..] == [z] && [z][1..] == [];
    assert Run(Do(Do(c, slots, x), slots, y), slots, [z]) == Do(Do(Do(c, slots, x), slots, y), slots, z);
  }

  /** The first insert under a type, and a second. */
  lemma Appended(a: Url, b: Url)
    ensures [] + [a] == [a] && [a] + [b] == [a, b] && [a, b][1..] == [b]
  {
  }

  /** The redirect of "c" takes over the entry of the main "a". When "a" is evicted, the buffer of "c" is freed
      under the entry that still names it. */
  lemma CollisionDangles(x: seq<byte>)
    ensures var c := Run(Empty<nat>(), 1, [InsertOp("a", x, "a", 0, 1), InsertOp("c", x, "a", 1, 2),
                                           InsertOp("d", x, "d", 0, 3)]);
            && "c" in c.entries && c.entries["c"].buffer in c.freed && c.entries["c"].buffer !in c.live
  {
    var op1, op2, op3 := InsertOp("a", x, "a", 0, 1), InsertOp("c", x, "a", 1, 2), InsertOp("d", x, "d", 0, 3);
    RunThree(Empty<nat>(), 1, op1, op2, op3);
    Appended("a", "d");
    Appended("c", "c");
    var c1 := Do(Empty<nat>(), 1, op1);
    assert c1.entries == map["a" := Entry("a", 1, 0, false)] && c1.queues == map[0 := ["a"]];
    var c2 := Do(c1, 1, op2);
    assert c2.entries == map["a" := Entry("a", 2, 1, false), "c" := Entry("a", 2, 1, true)];
    assert c2.queues == map[0 := ["a"], 1 := ["c"]];
    var p := Push(c2, "d", x, 0, 3);
    assert p.queues[0] == ["a", "d"] && p.queues[0][0] == "a";
    assert RemoveOldest(p, 0).freed == c2.freed + {2};
  }

  lemma SecondTakesRedirect(c: Cache<nat>, x: seq<byte>)
    requires c == Do(Empty<nat>(), 1, InsertOp("a", x, "b", 0, 1))
    ensures var d := Do(c, 1, InsertOp("c", x, "b", 1, 2));
            && d.entries == map["a" := Entry("b", 1, 0, true), "b" := Entry("b", 2, 1, false), "c" := Entry("b", 2, 1, true)]
            && d.queues == map[0 := ["a"], 1 := ["c"]] && d.live == map[1 := x, 2 := x]
  {
    Appended("a", "d");
    Appended("c", "c");
    assert c.entries == map["a" := Entry("b", 1, 0, true), "b" := Entry("b", 1, 0, false)];
    assert c.queues == map[0 := ["a"]] && c.live == map[1 := x];
  }

  lemma ThirdEvictsFirst(c: Cache<nat>, x: seq<byte>)
    requires c.entries == map["a" := Entry("b", 1, 0, true), "b" := Entry("b", 2, 1, false), "c" := Entry("b", 2, 1, true)]
    requires c.queues == map[0 := ["a"], 1 := ["c"]] && c.live == map[1 := x, 2 := x]
    ensures var d := Do(c, 1, InsertOp("d", x, "d", 0, 3));
            && d.entries == map["c" := Entry("b", 2, 1, true), "d" := Entry("d", 3, 0, false)]
            && d.live == map[2 := x, 3 := x]
  {
    Appended("a", "d");
    var p := Push(c, "d", x, 0, 3);
    assert p.queues[0] == ["a", "d"] && p.queues[0][0] == "a" && p.live == map[1 := x, 2 := x, 3 := x];
    var q := Enqueue(c, 1, "d", x, 0, 3);
    FirstEvicted(p, x);
    assert q == RemoveOldest(p, 0);
  }

  lemma FirstEvicted(p: Cache<nat>, x: seq<byte>)
    requires p.entries == map["a" := Entry("b", 1, 0, true), "b" := Entry("b", 2, 1, false), "c" := Entry("b", 2, 1, true)]
    requires 0 in p.queues && p.queues[0] == ["a", "d"] && p.live == map[1 := x, 2 := x, 3 := x]
    ensures RemoveOldest(p, 0).entries == map["c" := Entry("b", 2, 1, true)]
    ensures RemoveOldest(p, 0).live == map[2 := x, 3 := x]
  {
  }

  /** The redirect of "c" takes over that of "a". When "a" is evicted it takes the shared redirect entry with it,
      and a clear then finds no unflagged entry for the buffer of "c". */
  lemma CollisionLeaks(x: seq<byte>)
    ensures var c := Run(Empty<nat>(), 1, [InsertOp("a", x, "b", 0, 1), InsertOp("c", x, "b", 1, 2),
                                           InsertOp("d", x, "d", 0, 3)]);
            && "c" in c.entries && c.entries["c"].buffer in c.live
            && c.entries["c"].buffer in Clear(c).live && Clear(c).entries == map[]
  {
    var op1, op2, op3 := InsertOp("a", x, "b", 0, 1), InsertOp("c", x, "b", 1, 2), InsertOp("d", x, "d", 0, 3);
    RunThree(Empty<nat>(), 1, op1, op2, op3);
    SecondTakesRedirect(Do(Empty<nat>(), 1, op1), x);
    ThirdEvictsFirst(Do(Do(Empty<nat>(), 1, op1), 1, op2), x);
    OneUnflagged(Do(Do(Do(Empty<nat>(), 1, op1), 1, op2), 1, op3).entries, 3);
  }

  lemma OneUnflagged(m: map<Url, Entry<nat>>, b: nat)
    requires m.Keys == {"c", "d"} && m["c"].duplicate && !m["d"].duplicate && m["d"].buffer == b
    ensures Unflagged(m) == {b}
  {
  }
}
