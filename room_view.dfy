/** The per-room report of api/reserve.go (FormatViewByRoom): the caller's
    slice is reordered in place, then one block is written per directory room. */
module RoomView {
  import opened GoRuntime
  import opened Reservations

  /** The comparator handed to sort.Slice: the start of one reservation
      against the END of the other. */
  predicate SortLess(a: Reserve, b: Reserve) {
    LexLess(a.startTime, b.endTime)
  }

  /** The comparator is not a strict order: a reservation that starts before
      it ends sorts before itself, and two overlapping reservations each sort
      before the other. So sort.Slice promises no order, only a permutation. */
  lemma SortLessIsNotAnOrder()
    ensures var x, y := Reserve("A", "10:00", "11:00", "u"), Reserve("A", "10:30", "12:00", "v");
            SortLess(x, x) && SortLess(x, y) && SortLess(y, x)
  {
  }

  /** sort.Slice as Go runs it on slices of up to twelve elements: insertion
      sort, swapping an element left while it is "less" than its neighbour. */
  method SortSlice(a: array<Reserve>)
    modifies a
    ensures multiset(a[..]) == old(multiset(a[..]))
  {
    var i := 1;
    while i < a.Length
      invariant 1 <= i
      invariant multiset(a[..]) == old(multiset(a[..]))
    {
      var j := i;
      while j > 0 && SortLess(a[j], a[j - 1])
        invariant 0 <= j <= i < a.Length
        invariant multiset(a[..]) == old(multiset(a[..]))
      {
        a[j], a[j - 1] := a[j - 1], a[j];
        j := j - 1;
      }
      i := i + 1;
    }
  }

  /** The line written for one reservation. */
  function ReserveLine(r: Reserve): string {
    "\t`" + r.startTime + "` ~ `" + r.endTime + "` (by " + r.user + ")"
  }

  /** The lines grouped under room `name`: one per reservation of that room,
      in slice order. */
  function LinesFor(rsvs: seq<Reserve>, name: string): seq<string> {
    if |rsvs| == 0 then []
    else
      var last := rsvs[|rsvs| - 1];
      LinesFor(rsvs[..|rsvs| - 1], name) + (if last.room == name then [ReserveLine(last)] else [])
  }

  /** The block of one directory room: header, its lines joined by newlines,
      and a closing newline. */
  function RoomBlock(room: Room, lines: seq<string>): string {
    room.name + "[" + room.description + "] :\n" + Join(lines, "\n") + "\n"
  }

  /** The blocks of the directory rooms, in directory order. */
  function Blocks(rsvs: seq<Reserve>, rooms: seq<Room>): (blocks: seq<string>)
    ensures |blocks| == |rooms|
    ensures forall i :: 0 <= i < |rooms| ==> blocks[i] == RoomBlock(rooms[i], LinesFor(rsvs, rooms[i].name))
  {
    seq(|rooms|, i requires 0 <= i < |rooms| => RoomBlock(rooms[i], LinesFor(rsvs, rooms[i].name)))
  }

  /** Pieces of text written one after the other. */
  function Concat(parts: seq<string>): string {
    if |parts| == 0 then "" else Concat(parts[..|parts| - 1]) + parts[|parts| - 1]
  }

  /** The report: the blocks of the directory rooms written in directory order. */
  function ViewByRoom(rsvs: seq<Reserve>, rooms: seq<Room>): string {
    Concat(Blocks(rsvs, rooms))
  }

  /** A lookup in groupRsv: a missing room reads as the empty (nil) slice. */
  function GroupOf(groups: map<string, seq<string>>, name: string): seq<string> {
    if name in groups then groups[name] else []
  }

  /** FormatViewByRoom: reorders `rsvs` in place, groups the lines by room and
      writes the directory rooms' blocks. */
  method FormatViewByRoom(rsvs: array<Reserve>, rooms: seq<Room>) returns (res: string)
    modifies rsvs
    ensures multiset(rsvs[..]) == old(multiset(rsvs[..]))
    ensures res == ViewByRoom(rsvs[..], rooms)
  {
    SortSlice(rsvs);
    var groupRsv := GroupLines(rsvs);
    res := WriteBlocks(groupRsv, rooms);
    assert GroupedBlocks(groupRsv, rooms) == Blocks(rsvs[..], rooms);
  }

  /** The first loop of FormatViewByRoom: each reservation's line appended to
      the group of its room, in slice order. */
  method GroupLines(rsvs: array<Reserve>) returns (groupRsv: map<string, seq<string>>)
    ensures forall name :: GroupOf(groupRsv, name) == LinesFor(rsvs[..], name)
  {
    groupRsv := map[];
    var k := 0;
    while k < rsvs.Length
      invariant 0 <= k <= rsvs.Length
      invariant forall name :: GroupOf(groupRsv, name) == LinesFor(rsvs[..k], name)
    {
      var r := rsvs[k];
      var next := groupRsv[r.room := GroupOf(groupRsv, r.room) + [ReserveLine(r)]];
      forall name ensures GroupOf(next, name) == LinesFor(rsvs[..k + 1], name) {
        LinesForSnoc(rsvs[..], k, name);
        assert rsvs[..][..k + 1] == rsvs[..k + 1] && rsvs[..][..k] == rsvs[..k];
      }
      groupRsv := next;
      k := k + 1;
    }
    assert rsvs[..k] == rsvs[..];
  }

  /** The blocks written from the grouped lines, in directory order. */
  function GroupedBlocks(groups: map<string, seq<string>>, rooms: seq<Room>): (blocks: seq<string>)
    ensures |blocks| == |rooms|
    ensures forall i :: 0 <= i < |rooms| ==> blocks[i] == RoomBlock(rooms[i], GroupOf(groups, rooms[i].name))
  {
    seq(|rooms|, i requires 0 <= i < |rooms| => RoomBlock(rooms[i], GroupOf(groups, rooms[i].name)))
  }

  /** The second loop of FormatViewByRoom: one block per directory room. */
  method WriteBlocks(groupRsv: map<string, seq<string>>, rooms: seq<Room>) returns (res: string)
    ensures res == Concat(GroupedBlocks(groupRsv, rooms))
  {
    res := "";
    var n := 0;
    while n < |rooms|
      invariant 0 <= n <= |rooms|
      invariant res == Concat(GroupedBlocks(groupRsv, rooms[..n]))
    {
      var block := RoomBlock(rooms[n], GroupOf(groupRsv, rooms[n].name));
      assert GroupedBlocks(groupRsv, rooms[..n + 1]) == GroupedBlocks(groupRsv, rooms[..n]) + [block];
      ConcatSnoc(GroupedBlocks(groupRsv, rooms[..n]), block);
      res := res + block;
      n := n + 1;
    }
    assert rooms[..n] == rooms;
  }

  /** One more reservation adds its line to its own room only. */
  lemma LinesForSnoc(rsvs: seq<Reserve>, k: nat, name: string)
    requires k < |rsvs|
    ensures LinesFor(rsvs[..k + 1], name) ==
            LinesFor(rsvs[..k], name) + (if rsvs[k].room == name then [ReserveLine(rsvs[k])] else [])
  {
    assert rsvs[..k + 1][..k] == rsvs[..k];
  }

  lemma ConcatSnoc(parts: seq<string>, last: string)
    ensures Concat(parts + [last]) == Concat(parts) + last
  {
    assert (parts + [last])[..|parts|] == parts;
  }

  lemma {:induction false} ConcatAppend(a: seq<string>, b: seq<string>)
    ensures Concat(a + b) == Concat(a) + Concat(b)
    decreases |b|
  {
    if |b| == 0 {
      assert a + b == a;
    } else {
      var n := |b| - 1;
      ConcatAppend(a, b[..n]);
      assert a + b == (a + b[..n]) + [b[n]];
      assert b == b[..n] + [b[n]];
      ConcatSnoc(a + b[..n], b[n]);
      ConcatSnoc(b[..n], b[n]);
    }
  }

  lemma {:induction false} LinesForAppend(a: seq<Reserve>, b: seq<Reserve>, name: string)
    ensures LinesFor(a + b, name) == LinesFor(a, name) + LinesFor(b, name)
    decreases |b|
  {
    if |b| == 0 {
      assert a + b == a;
    } else {
      LinesForAppend(a, b[..|b| - 1], name);
      assert (a + b)[..|a + b| - 1] == a + b[..|b| - 1];
    }
  }

  /** Every line under a room is the line of a reservation for that room, and
      every reservation for that room has its line there. */
  lemma {:induction false} LinesForMembers(rsvs: seq<Reserve>, name: string, line: string)
    ensures line in LinesFor(rsvs, name) <==>
            exists i :: 0 <= i < |rsvs| && rsvs[i].room == name && line == ReserveLine(rsvs[i])
    decreases |rsvs|
  {
    if |rsvs| > 0 {
      var n := |rsvs| - 1;
      var init := rsvs[..n];
      LinesForMembers(init, name, line);
      if exists i :: 0 <= i < |init| && init[i].room == name && line == ReserveLine(init[i]) {
        var i :| 0 <= i < |init| && init[i].room == name && line == ReserveLine(init[i]);
        assert rsvs[i] == init[i];
      }
      if exists i :: 0 <= i < |rsvs| && rsvs[i].room == name && line == ReserveLine(rsvs[i]) {
        var i :| 0 <= i < |rsvs| && rsvs[i].room == name && line == ReserveLine(rsvs[i]);
        if i < n { assert init[i] == rsvs[i]; }
      }
    }
  }

  /** The room of each reservation, in slice order. */
  function RoomsOf(rsvs: seq<Reserve>): (names: seq<string>)
    ensures |names| == |rsvs|
    ensures forall i :: 0 <= i < |rsvs| ==> names[i] == rsvs[i].room
  {
    seq(|rsvs|, i requires 0 <= i < |rsvs| => rsvs[i].room)
  }

  /** A room's block has exactly as many lines as the slice has reservations
      for that room. */
  lemma {:induction false} LinesForLength(rsvs: seq<Reserve>, name: string)
    ensures |LinesFor(rsvs, name)| == multiset(RoomsOf(rsvs))[name]
    decreases |rsvs|
  {
    if |rsvs| > 0 {
      var n := |rsvs| - 1;
      LinesForLength(rsvs[..n], name);
      assert RoomsOf(rsvs) == RoomsOf(rsvs[..n]) + [rsvs[n].room];
    }
  }

  /** Reordering the slice can only reorder the lines of each room: the
      multiset of a room's lines depends on the multiset of reservations alone. */
  lemma {:induction false} LinesForPermutation(a: seq<Reserve>, b: seq<Reserve>, name: string)
    requires multiset(a) == multiset(b)
    ensures multiset(LinesFor(a, name)) == multiset(LinesFor(b, name))
    decreases |a|
  {
    if |a| > 0 {
      var n := |a| - 1;
      var x := a[n];
      assert a == a[..n] + [x];
      assert x in multiset(b);
      var k :| 0 <= k < |b| && b[k] == x;
      var rest := b[..k] + b[k + 1..];
      assert b == b[..k] + [x] + b[k + 1..];
      assert multiset(a[..n]) == multiset(rest) by {
        assert multiset(a) == multiset(a[..n]) + multiset{x};
        assert multiset(b) == multiset(b[..k]) + multiset{x} + multiset(b[k + 1..]);
        assert multiset(rest) == multiset(b[..k]) + multiset(b[k + 1..]);
        assert multiset(a[..n]) == multiset(a) - multiset{x};
        assert multiset(rest) == multiset(b) - multiset{x};
      }
      LinesForPermutation(a[..n], rest, name);
      LinesForAppend(a[..n], [x], name);
      LinesForAppend(b[..k] + [x], b[k + 1..], name);
      LinesForAppend(b[..k], [x], name);
      LinesForAppend(b[..k], b[k + 1..], name);
    }
  }

  /** The report over two parts of the directory is the report of the first
      part followed by that of the second. */
  lemma ViewSplits(rsvs: seq<Reserve>, a: seq<Room>, b: seq<Room>)
    ensures ViewByRoom(rsvs, a + b) == ViewByRoom(rsvs, a) + ViewByRoom(rsvs, b)
  {
    assert Blocks(rsvs, a + b) == Blocks(rsvs, a) + Blocks(rsvs, b);
    ConcatAppend(Blocks(rsvs, a), Blocks(rsvs, b));
  }

  lemma ViewOne(rsvs: seq<Reserve>, room: Room)
    ensures ViewByRoom(rsvs, [room]) == RoomBlock(room, LinesFor(rsvs, room.name))
  {
    var block := RoomBlock(room, LinesFor(rsvs, room.name));
    assert Blocks(rsvs, [room]) == [] + [block];
    ConcatSnoc([], block);
  }

  /** The report is the directory rooms' blocks in directory order: the block
      of room k sits between the blocks of the rooms before and after it. */
  lemma ViewBlockAt(rsvs: seq<Reserve>, rooms: seq<Room>, k: nat)
    requires k < |rooms|
    ensures ViewByRoom(rsvs, rooms) ==
            ViewByRoom(rsvs, rooms[..k]) + RoomBlock(rooms[k], LinesFor(rsvs, rooms[k].name)) + ViewByRoom(rsvs, rooms[k + 1..])
  {
    var before, after := Blocks(rsvs, rooms[..k]), Blocks(rsvs, rooms[k + 1..]);
    var block := RoomBlock(rooms[k], LinesFor(rsvs, rooms[k].name));
    assert Blocks(rsvs, rooms) == before + [block] + after;
    ConcatAppend(before + [block], after);
    ConcatSnoc(before, block);
  }

  /** A reservation for a room outside the directory leaves no trace in the
      report. */
  lemma UnlistedRoomIgnored(a: seq<Reserve>, x: Reserve, b: seq<Reserve>, rooms: seq<Room>)
    requires forall i :: 0 <= i < |rooms| ==> rooms[i].name != x.room
    ensures ViewByRoom(a + [x] + b, rooms) == ViewByRoom(a + b, rooms)
  {
    forall i | 0 <= i < |rooms|
      ensures LinesFor(a + [x] + b, rooms[i].name) == LinesFor(a + b, rooms[i].name)
    {
      var name := rooms[i].name;
      LinesForAppend(a + [x], b, name);
      LinesForAppend(a, [x], name);
      LinesForAppend(a, b, name);
      assert LinesFor([x], name) == [] by { assert [x][..0] == []; }
    }
    assert Blocks(a + [x] + b, rooms) == Blocks(a + b, rooms);
  }

  /** With no reservations every directory room is still listed, at its
      directory position, with an empty block. */
  lemma EmptyStoreListsEveryRoom(rooms: seq<Room>, k: nat)
    requires k < |rooms|
    ensures ViewByRoom([], rooms) ==
            ViewByRoom([], rooms[..k]) + rooms[k].name + "[" + rooms[k].description + "] :\n\n" + ViewByRoom([], rooms[k + 1..])
  {
    ViewBlockAt([], rooms, k);
  }

  /** An instance: a two-room directory and an empty store. */
  lemma EmptyReportListsEveryRoom()
    ensures ViewByRoom([], [Room("A", "1F"), Room("B", "2F")]) == "A[1F] :\n\nB[2F] :\n\n"
  {
    var rooms := [Room("A", "1F"), Room("B", "2F")];
    var blockA, blockB := "A[1F] :\n\n", "B[2F] :\n\n";
    assert Blocks([], rooms)[0] == blockA;
    assert Blocks([], rooms)[1] == blockB;
    assert Blocks([], rooms) == [] + [blockA] + [blockB];
    ConcatSnoc([] + [blockA], blockB);
    ConcatSnoc([], blockA);
  }
}
