/** Reservation records (api/reserve.go): the text codec that stores a
    reservation as one key-value pair, and the conflict scan over the pairs
    of one date and room. */
module Reservations {
  import opened GoRuntime
  import opened KvStore

  /** A reservation as the bot handles it; times are "HH:MM" text. */
  datatype Reserve = Reserve(room: string, startTime: string, endTime: string, user: string)

  /** An entry of the room directory. */
  datatype Room = Room(name: string, description: string)

  /** The field separator of keys and values. */
  const Sep: char := '_'

  /** None of the four fields contains the separator. */
  predicate SeparatorFree(r: Reserve) {
    Sep !in r.room && Sep !in r.startTime && Sep !in r.endTime && Sep !in r.user
  }

  /** The key prefix IsConflict scans for a date and a room: date_room. */
  function ScanPrefix(date: string, room: string): string {
    date + [Sep] + room
  }

  /** FormatKV: key date_room_seconds, value start_end_user. `date` is the
      current day as "2006-01-02"-formatted text and `unixSeconds` the current
      Unix time; both stand for the two readings of the clock. */
  function FormatKV(r: Reserve, date: string, unixSeconds: int): (kv: Entry)
    ensures HasPrefix(kv.0, ScanPrefix(date, r.room))
  {
    var key := ScanPrefix(date, r.room) + [Sep] + DecimalString(unixSeconds);
    assert key[..|ScanPrefix(date, r.room)|] == ScanPrefix(date, r.room);
    (key, r.startTime + [Sep] + r.endTime + [Sep] + r.user)
  }

  /** ParseReserveKV: the room is key piece 1 and the times and user are value
      pieces 0 to 2; any further pieces are ignored, and too few pieces index
      out of range. */
  function ParseReserveKV(key: string, val: string): (r: Result<Reserve>)
    ensures r.IndexPanic? <==> Sep !in key || multiset(val)[Sep] < 2
    ensures r.Ok? ==> SeparatorFree(r.value)
  {
    SplitLength(key, Sep);
    SplitLength(val, Sep);
    var k := Split(key, Sep);
    var v := Split(val, Sep);
    if |k| < 2 || |v| < 3 then IndexPanic
    else Ok(Reserve(k[1], v[0], v[1], v[2]))
  }

  lemma SplitThree(a: string, b: string, c: string)
    requires Sep !in a && Sep !in b && Sep !in c
    ensures Split(a + [Sep] + b + [Sep] + c, Sep) == [a, b, c]
  {
    var bc := b + [Sep] + c;
    assert a + [Sep] + b + [Sep] + c == a + [Sep] + bc;
    SplitAtFirst(a, bc, Sep);
    SplitAtFirst(b, c, Sep);
    SplitNone(c, Sep);
  }

  /** Decoding an encoded record gives back all four fields, as long as the
      date and the fields are free of the separator. */
  lemma FormatParseRoundTrip(r: Reserve, date: string, unixSeconds: int)
    requires SeparatorFree(r) && Sep !in date
    ensures var kv := FormatKV(r, date, unixSeconds); ParseReserveKV(kv.0, kv.1) == Ok(r)
  {
    var kv := FormatKV(r, date, unixSeconds);
    var ds := DecimalString(unixSeconds);
    assert kv.0 == date + [Sep] + (r.room + [Sep] + ds);
    SplitAtFirst(date, r.room + [Sep] + ds, Sep);
    SplitAtFirst(r.room, ds, Sep);
    SplitThree(r.startTime, r.endTime, r.user);
  }

  /** An encoded record always decodes, but a room containing the separator
      comes back cut at its first separator. */
  lemma FormattedRoomTruncated(r: Reserve, date: string, unixSeconds: int)
    requires Sep !in date
    ensures var kv := FormatKV(r, date, unixSeconds);
            var p := ParseReserveKV(kv.0, kv.1);
            && p.Ok?
            && p.value.room == Split(r.room, Sep)[0]
            && HasPrefix(r.room, p.value.room)
            && (p.value.room == r.room <==> Sep !in r.room)
  {
    var kv := FormatKV(r, date, unixSeconds);
    KeyRoomPiece(r.room, date, DecimalString(unixSeconds));
    ValueHasThreePieces(r.startTime, r.endTime, r.user);
    SplitHead(r.room, Sep);
  }

  /** Piece 1 of a key is the room up to its first separator. */
  lemma KeyRoomPiece(room: string, date: string, ds: string)
    requires Sep !in date
    ensures var k := Split(ScanPrefix(date, room) + [Sep] + ds, Sep);
            |k| >= 2 && k[1] == Split(room, Sep)[0]
  {
    assert ScanPrefix(date, room) + [Sep] + ds == date + [Sep] + (room + [Sep] + ds);
    SplitAtFirst(date, room + [Sep] + ds, Sep);
    SplitHeadOfAppend(room, ds, Sep);
  }

  /** A value written by FormatKV has at least three pieces. */
  lemma ValueHasThreePieces(s: string, e: string, u: string)
    ensures |Split(s + [Sep] + e + [Sep] + u, Sep)| >= 3
  {
    SplitLength(s + [Sep] + e + [Sep] + u, Sep);
    assert multiset(s + [Sep] + e + [Sep] + u) == multiset(s) + multiset{Sep} + multiset(e) + multiset{Sep} + multiset(u);
  }

  /** With separator-free times, a user name containing the separator comes
      back cut at its first separator. */
  lemma FormattedUserTruncated(r: Reserve, date: string, unixSeconds: int)
    requires Sep !in date && Sep !in r.startTime && Sep !in r.endTime
    ensures var kv := FormatKV(r, date, unixSeconds);
            var p := ParseReserveKV(kv.0, kv.1);
            && p.Ok?
            && p.value.user == Split(r.user, Sep)[0]
            && HasPrefix(r.user, p.value.user)
            && (p.value.user == r.user <==> Sep !in r.user)
  {
    KeyRoomPiece(r.room, date, DecimalString(unixSeconds));
    ValueUserPiece(r.startTime, r.endTime, r.user);
    SplitHead(r.user, Sep);
  }

  /** With separator-free times, value piece 2 is the user up to its first
      separator. */
  lemma ValueUserPiece(s: string, e: string, u: string)
    requires Sep !in s && Sep !in e
    ensures var v := Split(s + [Sep] + e + [Sep] + u, Sep);
            |v| >= 3 && v[2] == Split(u, Sep)[0]
  {
    assert s + [Sep] + e + [Sep] + u == s + [Sep] + (e + [Sep] + u);
    SplitAtFirst(s, e + [Sep] + u, Sep);
    SplitAtFirst(e, u, Sep);
  }

  /** Keys written in the same second for the same date clash exactly when
      the rooms are the same. */
  lemma SameSecondKeysCollide(r1: Reserve, r2: Reserve, date: string, unixSeconds: int)
    ensures FormatKV(r1, date, unixSeconds).0 == FormatKV(r2, date, unixSeconds).0 <==> r1.room == r2.room
  {
    var k1, k2 := FormatKV(r1, date, unixSeconds).0, FormatKV(r2, date, unixSeconds).0;
    if k1 == k2 {
      var lo := |date| + 1;
      assert |r1.room| == |r2.room|;
      assert k1[lo..lo + |r1.room|] == r1.room;
      assert k2[lo..lo + |r2.room|] == r2.room;
    }
  }

  /** The overlap test of IsConflict: a stored interval [start, end) against
      the requested one, with Go's string order on "HH:MM" text. */
  predicate Overlaps(start: string, end: string, req: Reserve) {
    LexLess(start, req.endTime) && LexLess(req.startTime, end)
  }

  /** Intervals that only touch do not overlap, in either order. */
  lemma TouchingIntervalsDoNotOverlap(a: string, b: string, c: string, room: string, user: string)
    ensures !Overlaps(a, b, Reserve(room, b, c, user))
    ensures !Overlaps(b, c, Reserve(room, a, b, user))
  {
    LexIrreflexive(b);
  }

  lemma LeLessTransitive(a: string, b: string, c: string)
    requires LexLe(a, b) && LexLess(b, c)
    ensures LexLess(a, c)
  {
    if a != b { LexTransitive(a, b, c); }
  }

  /** For two non-empty intervals the test holds exactly when some instant
      lies in both half-open intervals. */
  lemma OverlapMeansSharedInstant(start: string, end: string, req: Reserve)
    requires LexLess(start, end) && LexLess(req.startTime, req.endTime)
    ensures Overlaps(start, end, req) <==>
            exists x :: LexLe(start, x) && LexLess(x, end) && LexLe(req.startTime, x) && LexLess(x, req.endTime)
  {
    if Overlaps(start, end, req) {
      LexTotal(start, req.startTime);
      var x := if LexLess(start, req.startTime) then req.startTime else start;
      assert LexLe(start, x) && LexLess(x, end) && LexLe(req.startTime, x) && LexLess(x, req.endTime);
    }
    if exists x :: LexLe(start, x) && LexLess(x, end) && LexLe(req.startTime, x) && LexLess(x, req.endTime) {
      var x :| LexLe(start, x) && LexLess(x, end) && LexLe(req.startTime, x) && LexLess(x, req.endTime);
      LeLessTransitive(start, x, req.endTime);
      LeLessTransitive(req.startTime, x, end);
    }
  }

  /** The stored value, split, has an interval overlapping the request. */
  predicate OverlapsRecord(val: string, req: Reserve) {
    var t := Split(val, Sep);
    |t| >= 2 && Overlaps(t[0], t[1], req)
  }

  /** A stored value IsConflict cannot read without indexing out of range:
      fewer than two pieces, or an overlapping interval with no owner piece. */
  predicate Unreadable(val: string, req: Reserve) {
    var t := Split(val, Sep);
    |t| < 2 || (Overlaps(t[0], t[1], req) && |t| < 3)
  }

  /** The owner piece of a stored value ("" when it has none). */
  function Owner(val: string): string {
    var t := Split(val, Sep);
    if |t| >= 3 then t[2] else ""
  }

  /** One record of the scan, as IsConflict's callback promises it: an
      unreadable record indexes out of range; otherwise an overlapping record
      makes its owner piece the new `owner` and any other record keeps it. */
  function ScanStep(owner: string, val: string, req: Reserve): Result<string> {
    if Unreadable(val, req) then IndexPanic
    else Ok(if OverlapsRecord(val, req) then Owner(val) else owner)
  }

  /** The `reserved_user` of IsConflict after visiting `vals` in order: it
      starts empty and every overlapping record overwrites it. */
  function ConflictOwner(vals: seq<string>, req: Reserve): Result<string> {
    if |vals| == 0 then Ok("")
    else
      match ConflictOwner(vals[..|vals| - 1], req)
      case IndexPanic => IndexPanic
      case Ok(owner) => ScanStep(owner, vals[|vals| - 1], req)
  }

  /** The scan panics exactly when some visited value is unreadable. */
  lemma {:induction false} ConflictOwnerPanicsIff(vals: seq<string>, req: Reserve)
    ensures ConflictOwner(vals, req).IndexPanic? <==> exists i :: 0 <= i < |vals| && Unreadable(vals[i], req)
    decreases |vals|
  {
    if |vals| > 0 {
      var n := |vals| - 1;
      var init, last := vals[..n], vals[n];
      assert vals == init + [last];
      ConflictOwnerPanicsIff(init, req);
      var o := ConflictOwner(init, req);
      if o.Ok? {
        OwnerStep(init, last, req, o.value);
      } else {
        PanicPersists(init, [last], req);
      }
      if exists i :: 0 <= i < |init| && Unreadable(init[i], req) {
        var i :| 0 <= i < |init| && Unreadable(init[i], req);
        assert vals[i] == init[i];
      }
      if exists i :: 0 <= i < |vals| && Unreadable(vals[i], req) {
        var i :| 0 <= i < |vals| && Unreadable(vals[i], req);
        if i < n { assert init[i] == vals[i]; }
      }
    }
  }

  /** Over readable values the scan reports the owner of the LAST overlapping
      record, and the empty owner when nothing overlaps. */
  lemma {:induction false} ConflictOwnerIsLastOverlap(vals: seq<string>, req: Reserve)
    requires forall i :: 0 <= i < |vals| ==> !Unreadable(vals[i], req)
    ensures (forall i :: 0 <= i < |vals| ==> !OverlapsRecord(vals[i], req)) ==> ConflictOwner(vals, req) == Ok("")
    ensures forall j :: 0 <= j < |vals| && OverlapsRecord(vals[j], req) &&
                        (forall k :: j < k < |vals| ==> !OverlapsRecord(vals[k], req)) ==>
                        ConflictOwner(vals, req) == Ok(Owner(vals[j]))
    decreases |vals|
  {
    if |vals| > 0 {
      var n := |vals| - 1;
      var init := vals[..n];
      assert forall i :: 0 <= i < n ==> init[i] == vals[i];
      ConflictOwnerIsLastOverlap(init, req);
      ConflictOwnerPanicsIff(init, req);
      var o := ConflictOwner(init, req);
      assert o.Ok?;
      assert ConflictOwner(vals, req) == ScanStep(o.value, vals[n], req);
    }
  }

  /** Once the scan has panicked, visiting more values changes nothing. */
  lemma {:induction false} PanicPersists(a: seq<string>, b: seq<string>, req: Reserve)
    requires ConflictOwner(a, req).IndexPanic?
    ensures ConflictOwner(a + b, req).IndexPanic?
    decreases |b|
  {
    if |b| == 0 {
      assert a + b == a;
    } else {
      PanicPersists(a, b[..|b| - 1], req);
      assert (a + b)[..|a + b| - 1] == a + b[..|b| - 1];
    }
  }

  /** An overlapping record whose owner piece is empty leaves the owner empty:
      the reply is the same as for a free room. */
  lemma EmptyHolderLooksFree(s: string, e: string, req: Reserve)
    requires Sep !in s && Sep !in e && Overlaps(s, e, req)
    ensures ConflictOwner([s + [Sep] + e + [Sep] + ""], req) == ConflictOwner([], req) == Ok("")
  {
    SplitThree(s, e, "");
    assert [s + [Sep] + e + [Sep] + ""][..0] == [];
  }

  /** What IsConflict returns: the owner, and whether the error is non-nil. */
  datatype ConflictReply = ConflictReply(user: string, duplicate: bool)

  /** The error is non-nil exactly when the owner is not empty. */
  function ReplyOf(owner: Result<string>): (r: Result<ConflictReply>)
    ensures r.Ok? <==> owner.Ok?
    ensures r.Ok? ==> r.value.user == owner.value && (r.value.duplicate <==> owner.value != "")
  {
    match owner
    case IndexPanic => IndexPanic
    case Ok(u) => Ok(ConflictReply(u, u != ""))
  }

  /** The loop of IsConflict over the store: seek to the first key at or
      above `prefix`, then visit the pairs while their key carries it. */
  method ScanForConflict(store: Store, prefix: string, req: Reserve) returns (res: Result<ConflictReply>)
    requires store.Valid()
    ensures res == ReplyOf(ConflictOwner(ScannedValues(store.entries, prefix), req))
  {
    var entries := store.entries;
    var i := store.Seek(prefix);
    var reservedUser := "";
    ghost var visited: seq<string> := [];
    while i < |entries| && HasPrefix(entries[i].0, prefix)
      invariant 0 <= i <= |entries|
      invariant i < |entries| ==> !LexLess(entries[i].0, prefix)
      invariant visited == ScannedValues(entries[..i], prefix)
      invariant ConflictOwner(visited, req) == Ok(reservedUser)
    {
      ScanAdvance(entries, prefix, i);
      OwnerStep(visited, entries[i].1, req, reservedUser);
      visited := visited + [entries[i].1];
      var step := VisitValue(reservedUser, entries[i].1, req);
      VisitIsStep(reservedUser, entries[i].1, req, step);
      if step.IndexPanic? {
        PanicAhead(entries, prefix, i + 1, req);
        return IndexPanic;
      }
      reservedUser := step.value;
      RunContinues(entries, prefix, i);
      i := i + 1;
    }
    ScanDone(entries, prefix, i);
    res := Ok(ConflictReply(reservedUser, reservedUser != ""));
  }

  /** A result that panics exactly on an unreadable record, and otherwise
      takes the owner piece on overlap, is one scan step. */
  lemma VisitIsStep(owner: string, val: string, req: Reserve, r: Result<string>)
    requires r.IndexPanic? <==> Unreadable(val, req)
    requires !Unreadable(val, req) ==> r == Ok(if OverlapsRecord(val, req) then Owner(val) else owner)
    ensures r == ScanStep(owner, val, req)
  {
  }

  /** The callback IsConflict runs on each visited value: split it, test the
      interval against the request, and on overlap take piece 2 as the owner. */
  method VisitValue(owner: string, val: string, req: Reserve) returns (r: Result<string>)
    ensures r.IndexPanic? <==> Unreadable(val, req)
    ensures !Unreadable(val, req) ==> r == Ok(if OverlapsRecord(val, req) then Owner(val) else owner)
  {
    var t := Split(val, Sep);
    if |t| < 2 {
      return IndexPanic;
    }
    var startT, endT := t[0], t[1];
    if LexLess(startT, req.endTime) && LexLess(req.startTime, endT) {
      if |t| < 3 {
        return IndexPanic;
      }
      return Ok(t[2]);
    }
    return Ok(owner);
  }

  /** Visiting the pair at `i` adds its value to what the scan has seen. */
  lemma ScanAdvance(entries: seq<Entry>, prefix: string, i: nat)
    requires i < |entries| && HasPrefix(entries[i].0, prefix)
    ensures ScannedValues(entries[..i + 1], prefix) == ScannedValues(entries[..i], prefix) + [entries[i].1]
  {
    assert entries[..i + 1][..i] == entries[..i];
  }

  /** One more visited value applies one scan step to the owner so far. */
  lemma OwnerStep(vals: seq<string>, v: string, req: Reserve, owner: string)
    requires ConflictOwner(vals, req) == Ok(owner)
    ensures ConflictOwner(vals + [v], req) == ScanStep(owner, v, req)
  {
    assert (vals + [v])[..|vals|] == vals;
  }

  /** A panic among the first `i` pairs is a panic of the whole scan. */
  lemma PanicAhead(entries: seq<Entry>, prefix: string, i: nat, req: Reserve)
    requires i <= |entries|
    requires ConflictOwner(ScannedValues(entries[..i], prefix), req).IndexPanic?
    ensures ConflictOwner(ScannedValues(entries, prefix), req).IndexPanic?
  {
    PanicPersists(ScannedValues(entries[..i], prefix), ScannedValues(entries[i..], prefix), req);
    ScanSplits(entries, prefix, i);
  }

  /** Where the prefix run ends, the pairs before it are all the scan sees. */
  lemma ScanDone(entries: seq<Entry>, prefix: string, i: nat)
    requires KeysAscending(entries) && i <= |entries|
    requires i < |entries| ==> !LexLess(entries[i].0, prefix) && !HasPrefix(entries[i].0, prefix)
    ensures ScannedValues(entries, prefix) == ScannedValues(entries[..i], prefix)
  {
    if i < |entries| {
      RunEnds(entries, prefix, i);
    } else {
      assert entries[i..] == [];
    }
    ScanSplits(entries, prefix, i);
  }

  lemma ScanSplits(entries: seq<Entry>, prefix: string, i: nat)
    requires i <= |entries|
    ensures ScannedValues(entries, prefix) == ScannedValues(entries[..i], prefix) + ScannedValues(entries[i..], prefix)
  {
    ScannedAppend(entries[..i], entries[i..], prefix);
    assert entries[..i] + entries[i..] == entries;
  }

  /** IsConflict: the scan over the keys starting with date_room; the store is
      only read. */
  method IsConflict(r: Reserve, store: Store, date: string) returns (res: Result<ConflictReply>)
    requires store.Valid()
    ensures res == ReplyOf(ConflictOwner(ScannedValues(store.entries, ScanPrefix(date, r.room)), r))
  {
    res := ScanForConflict(store, ScanPrefix(date, r.room), r);
  }

  /** The scan prefix date_room also selects the records of every room whose
      name merely starts with `room`. */
  lemma ScanPrefixMatchesRoomExtensions(room: string, other: Reserve, date: string, unixSeconds: int)
    requires Sep !in room
    ensures HasPrefix(FormatKV(other, date, unixSeconds).0, ScanPrefix(date, room)) <==> HasPrefix(other.room, room)
  {
    var key := FormatKV(other, date, unixSeconds).0;
    var lo := |date| + 1;
    assert key[..lo] == date + [Sep];
    if HasPrefix(key, ScanPrefix(date, room)) {
      PrefixBeforeSeparator(date + [Sep] + other.room, DecimalString(unixSeconds), ScanPrefix(date, room), Sep);
      assert other.room[..|room|] == key[lo..lo + |room|];
      assert room == ScanPrefix(date, room)[lo..lo + |room|];
    }
    if HasPrefix(other.room, room) {
      assert key[..|ScanPrefix(date, room)|] == date + [Sep] + other.room[..|room|];
    }
  }

  lemma PrefixAt(s: string, p: string, k: nat)
    requires HasPrefix(s, p) && k < |p|
    ensures p[k] == s[k]
  {
    assert p[k] == s[..|p|][k];
  }

  /** A prefix without `c` that fits in front of a `c` ends before it. */
  lemma PrefixBeforeSeparator(y: string, z: string, x: string, c: char)
    requires HasPrefix(y + [c] + z, x)
    requires forall i :: |y| <= i < |x| ==> x[i] != c
    ensures HasPrefix(y, x)
  {
    var s := y + [c] + z;
    if |x| > |y| {
      PrefixAt(s, x, |y|);
    }
    assert s[..|x|] == y[..|x|];
  }

  /** Under date_room, an overlapping record of a room whose name extends
      `room` is reported as a conflict, with its user as the holder. */
  lemma ScanPrefixReportsExtendedRoom(req: Reserve, held: Reserve, date: string, unixSeconds: int)
    requires Sep !in req.room && SeparatorFree(held)
    requires HasPrefix(held.room, req.room) && Overlaps(held.startTime, held.endTime, req)
    ensures ConflictOwner(ScannedValues([FormatKV(held, date, unixSeconds)], ScanPrefix(date, req.room)), req) == Ok(held.user)
  {
    var e := FormatKV(held, date, unixSeconds);
    ScanPrefixMatchesRoomExtensions(req.room, held, date, unixSeconds);
    ScannedOne(e, ScanPrefix(date, req.room));
    SplitThree(held.startTime, held.endTime, held.user);
    OwnerStep([], e.1, req, "");
    assert [] + [e.1] == [e.1];
  }

  /** Under date_room_, a record of any other separator-free room is not
      visited, so it cannot be reported. */
  lemma RoomKeyPrefixSkipsOtherRoom(req: Reserve, held: Reserve, date: string, unixSeconds: int)
    requires Sep !in req.room && Sep !in held.room && held.room != req.room
    ensures ConflictOwner(ScannedValues([FormatKV(held, date, unixSeconds)], RoomKeyPrefix(date, req.room)), req) == Ok("")
  {
    RoomKeyPrefixSelectsRoom(req.room, held, date, unixSeconds);
    ScannedOne(FormatKV(held, date, unixSeconds), RoomKeyPrefix(date, req.room));
  }

  /** A stored record of room "AB" overlapping a request for room "A": the
      scan over date_room reports its holder as a conflict, the scan over
      date_room_ does not. */
  lemma RoomExtensionCounterexample(unixSeconds: int)
    ensures var date, held := "2024-01-01", Reserve("AB", "10:00", "11:00", "bob");
            var req := Reserve("A", "10:30", "11:30", "ann");
            var entries := [FormatKV(held, date, unixSeconds)];
            ReplyOf(ConflictOwner(ScannedValues(entries, ScanPrefix(date, req.room)), req)) == Ok(ConflictReply("bob", true)) &&
            ReplyOf(ConflictOwner(ScannedValues(entries, RoomKeyPrefix(date, req.room)), req)) == Ok(ConflictReply("", false))
  {
    var date, held := "2024-01-01", Reserve("AB", "10:00", "11:00", "bob");
    var req := Reserve("A", "10:30", "11:30", "ann");
    assert HasPrefix(held.room, req.room);
    assert Overlaps(held.startTime, held.endTime, req);
    ScanPrefixReportsExtendedRoom(req, held, date, unixSeconds);
    RoomKeyPrefixSkipsOtherRoom(req, held, date, unixSeconds);
  }

  /** A one-pair store is visited exactly when its key carries the prefix. */
  lemma ScannedOne(e: Entry, prefix: string)
    ensures ScannedValues([e], prefix) == if HasPrefix(e.0, prefix) then [e.1] else []
  {
    assert [e][..0] == [];
  }

  /** The key prefix date_room_ that scans one room only. */
  function RoomKeyPrefix(date: string, room: string): string {
    ScanPrefix(date, room) + [Sep]
  }

  /** With separator-free room names, date_room_ selects exactly the records
      written for that room. */
  lemma RoomKeyPrefixSelectsRoom(room: string, other: Reserve, date: string, unixSeconds: int)
    requires Sep !in room && Sep !in other.room
    ensures HasPrefix(FormatKV(other, date, unixSeconds).0, RoomKeyPrefix(date, room)) <==> other.room == room
  {
    var key := FormatKV(other, date, unixSeconds).0;
    var p := RoomKeyPrefix(date, room);
    var lo := |date| + 1;
    if HasPrefix(key, p) {
      ScanPrefixMatchesRoomExtensions(room, other, date, unixSeconds);
      assert HasPrefix(key, ScanPrefix(date, room)) by { assert key[..|p| - 1] == p[..|p| - 1]; }
      assert key == p + key[|p|..];
      assert HasPrefix(key, date + [Sep] + other.room);
      PrefixBeforeSeparator(date + [Sep] + room, key[|p|..], date + [Sep] + other.room, Sep);
      assert other.room == other.room[..|room|];
    }
    if other.room == room {
      assert key[..|p|] == p;
    }
  }

  /** The version of IsConflict that scans only the records of the requested
      room, using date_room_ as the prefix. */
  method IsConflictInRoom(r: Reserve, store: Store, date: string) returns (res: Result<ConflictReply>)
    requires store.Valid()
    ensures res == ReplyOf(ConflictOwner(ScannedValues(store.entries, RoomKeyPrefix(date, r.room)), r))
  {
    res := ScanForConflict(store, RoomKeyPrefix(date, r.room), r);
  }
}
