/** The room search query: which rooms qualify (`WHERE` of `buscar_habitaciones`)
    and the `ORDER BY h.tipo, h.precio_noche` ordering of the answer. */
module RoomSearch {
  import opened BookingTypes
  import opened Availability

  /** SQLite's BINARY collation on TEXT: byte-wise comparison of the UTF-8 encodings,
      which orders strings exactly as code point by code point lexicographic order. */
  predicate TextBefore(a: string, b: string) {
    if a == [] then b != []
    else if b == [] then false
    else a[0] < b[0] || (a[0] == b[0] && TextBefore(a[1..], b[1..]))
  }

  lemma {:induction false} TextBeforeTransitive(a: string, b: string, c: string)
    requires TextBefore(a, b) && TextBefore(b, c)
    ensures TextBefore(a, c)
  {
    if a != [] && b != [] && c != [] && a[0] == b[0] && b[0] == c[0] {
      TextBeforeTransitive(a[1..], b[1..], c[1..]);
    }
  }

  /** Any two distinct strings are ordered one way or the other. */
  lemma {:induction false} TextBeforeTotal(a: string, b: string)
    requires a != b
    ensures TextBefore(a, b) || TextBefore(b, a)
  {
    if a != [] && b != [] && a[0] == b[0] {
      assert a == [a[0]] + a[1..] && b == [b[0]] + b[1..];
      TextBeforeTotal(a[1..], b[1..]);
    }
  }

  /** `x` may precede `y` in `ORDER BY tipo, precio_noche`. */
  predicate RoomNotAfter(x: Room, y: Room) {
    TextBefore(x.kind, y.kind) || (x.kind == y.kind && x.nightlyRate <= y.nightlyRate)
  }

  lemma RoomNotAfterTotal(x: Room, y: Room)
    ensures RoomNotAfter(x, y) || RoomNotAfter(y, x)
  {
    if x.kind != y.kind {
      TextBeforeTotal(x.kind, y.kind);
    }
  }

  lemma RoomNotAfterTransitive(x: Room, y: Room, z: Room)
    requires RoomNotAfter(x, y) && RoomNotAfter(y, z)
    ensures RoomNotAfter(x, z)
  {
    if TextBefore(x.kind, y.kind) && TextBefore(y.kind, z.kind) {
      TextBeforeTransitive(x.kind, y.kind, z.kind);
    }
  }

  /** The rows come out ordered by type, then by ascending nightly rate. */
  ghost predicate OrderedByKindAndRate(s: seq<Room>) {
    forall i, j :: 0 <= i < j < |s| ==> RoomNotAfter(s[i], s[j])
  }

  /** Places `x` before the first row it may precede. */
  function InsertRoom(x: Room, s: seq<Room>): (r: seq<Room>)
    ensures multiset(r) == multiset(s) + multiset{x}
    ensures |r| == |s| + 1
  {
    if s == [] then [x]
    else if RoomNotAfter(x, s[0]) then [x] + s
    else
      assert s == [s[0]] + s[1..];
      [s[0]] + InsertRoom(x, s[1..])
  }

  lemma {:induction false} InsertRoomOrdered(x: Room, s: seq<Room>)
    requires OrderedByKindAndRate(s)
    ensures OrderedByKindAndRate(InsertRoom(x, s))
  {
    if s == [] {
    } else if RoomNotAfter(x, s[0]) {
      var r := [x] + s;
      forall i, j | 0 <= i < j < |r| ensures RoomNotAfter(r[i], r[j]) {
        if i == 0 {
          if j > 1 {
            RoomNotAfterTransitive(x, s[0], s[j - 1]);
          }
        } else {
          assert r[i] == s[i - 1] && r[j] == s[j - 1];
        }
      }
    } else {
      var tail := InsertRoom(x, s[1..]);
      InsertRoomOrdered(x, s[1..]);
      RoomNotAfterTotal(x, s[0]);
      var r := [s[0]] + tail;
      forall i, j | 0 <= i < j < |r| ensures RoomNotAfter(r[i], r[j]) {
        if i == 0 {
          var y := r[j];
          assert y in multiset(tail);
          assert y in multiset(s[1..]) || y == x;
          if y != x {
            var k :| 1 <= k < |s| && s[k] == y by {
              assert y in s[1..];
            }
          }
        } else {
          assert r[i] == tail[i - 1] && r[j] == tail[j - 1];
        }
      }
    }
  }

  /** The answer rows in the query's `ORDER BY` order. SQLite promises no order among
      ties; this sort keeps them in table order. */
  function SortRooms(s: seq<Room>): (r: seq<Room>)
    ensures multiset(r) == multiset(s)
    ensures |r| == |s|
  {
    if s == [] then []
    else
      assert s == [s[0]] + s[1..];
      InsertRoom(s[0], SortRooms(s[1..]))
  }

  lemma {:induction false} SortRoomsOrdered(s: seq<Room>)
    ensures OrderedByKindAndRate(SortRooms(s))
  {
    if s != [] {
      SortRoomsOrdered(s[1..]);
      InsertRoomOrdered(s[0], SortRooms(s[1..]));
    }
  }

  /** The search's `WHERE`: available, large enough, of the requested type when one is
      given (an empty type is no filter), and with no active reservation overlapping
      [start, end). An explicit null guest count compares with NULL and admits no room;
      an omitted one defaults to 1, which the caller passes as Some(1). */
  predicate Qualifies(x: Room, rs: seq<Reservation>, start: Day, end: Day,
                      kind: Option<string>, guests: Option<int>)
  {
    && x.available
    && guests.Some? && x.capacity >= guests.value
    && (kind.None? || kind.value == "" || x.kind == kind.value)
    && Free(rs, x.id, start, end)
  }

  /** The rows of `habitaciones` that satisfy the `WHERE`, in table order. */
  function Qualifying(rooms: seq<Room>, rs: seq<Reservation>, start: Day, end: Day,
                      kind: Option<string>, guests: Option<int>): (r: seq<Room>)
    ensures |r| <= |rooms|
  {
    if rooms == [] then []
    else
      var rest := Qualifying(rooms[..|rooms| - 1], rs, start, end, kind, guests);
      var x := rooms[|rooms| - 1];
      if Qualifies(x, rs, start, end, kind, guests) then rest + [x] else rest
  }

  /** A room is in the answer exactly when it is in the table and satisfies the `WHERE`. */
  lemma {:induction false} QualifyingMembers(rooms: seq<Room>, rs: seq<Reservation>, start: Day, end: Day,
                                             kind: Option<string>, guests: Option<int>, x: Room)
    ensures x in Qualifying(rooms, rs, start, end, kind, guests)
            <==> x in rooms && Qualifies(x, rs, start, end, kind, guests)
  {
    if rooms != [] {
      var init := rooms[..|rooms| - 1];
      QualifyingMembers(init, rs, start, end, kind, guests, x);
      assert rooms == init + [rooms[|rooms| - 1]];
    }
  }

  /** A room is listed at most once, as often as the table holds it. */
  lemma {:induction false} QualifyingMultiplicity(rooms: seq<Room>, rs: seq<Reservation>, start: Day, end: Day,
                                                  kind: Option<string>, guests: Option<int>, x: Room)
    ensures multiset(Qualifying(rooms, rs, start, end, kind, guests))[x]
            == if Qualifies(x, rs, start, end, kind, guests) then multiset(rooms)[x] else 0
  {
    if rooms != [] {
      var init := rooms[..|rooms| - 1];
      QualifyingMultiplicity(init, rs, start, end, kind, guests, x);
      assert rooms == init + [rooms[|rooms| - 1]];
    }
  }
}
