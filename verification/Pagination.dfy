/** Cursor pagination of sandboxes and snapshots (internal/e2bapi/list.go, snapshots.go): a listing
    that follows next tokens while sandboxes come and go between the pages. */
module Pagination {
  import opened Domain
  import opened Text

  /** What a page orders its entries by: the start of the run (or the snapshot's creation), in
      nanoseconds, and the id. It is also what a cursor holds. */
  datatype Item = Item(time: int, id: string)

  // ---------------------------------------------------------------------------------------------
  // The order
  // ---------------------------------------------------------------------------------------------

  /** Byte-wise order of strings. */
  predicate Before(a: string, b: string) {
    if b == "" then false
    else if a == "" then true
    else if a[0] != b[0] then a[0] < b[0]
    else Before(a[1..], b[1..])
  }

  lemma SameStart(a: string, b: string, n: nat)
    requires n <= |a| && n <= |b| && a[..n] == b[..n]
    ensures n > 0 ==> a[0] == b[0]
  {
    assert n > 0 ==> a[..n][0] == b[..n][0];
  }

  /** That is: one is the start of the other, or at the first place where they differ it is smaller. */
  lemma {:induction false} BeforeIsLexicographic(a: string, b: string)
    ensures Before(a, b) <==>
            exists n: nat :: n <= |a| && n < |b| && a[..n] == b[..n] && (n == |a| || a[n] < b[n])
  {
    if a != "" && b != "" && a[0] == b[0] {
      var x, y := a[1..], b[1..];
      BeforeIsLexicographic(x, y);
      if n: nat :| n <= |x| && n < |y| && x[..n] == y[..n] && (n == |x| || x[n] < y[n]) {
        assert a[..n + 1] == [a[0]] + x[..n] && b[..n + 1] == [b[0]] + y[..n];
      }
      if n: nat :| n <= |a| && n < |b| && a[..n] == b[..n] && (n == |a| || a[n] < b[n]) {
        assert n > 0 && x[..n - 1] == a[..n][1..] && y[..n - 1] == b[..n][1..];
      }
    } else if n: nat :| n <= |a| && n < |b| && a[..n] == b[..n] && (n == |a| || a[n] < b[n]) {
      SameStart(a, b, n);
    } else if Before(a, b) {
      assert a[..0] == b[..0];
    }
  }

  /** Newest first and ids ascending, or oldest first and ids descending. */
  predicate Less(a: Item, b: Item, descending: bool) {
    if a.time != b.time then (if descending then a.time > b.time else a.time < b.time)
    else if descending then Before(a.id, b.id) else Before(b.id, a.id)
  }

  lemma {:induction false} BeforeTransitive(a: string, b: string, c: string)
    requires Before(a, b) && Before(b, c)
    ensures Before(a, c)
  {
    if a != "" && a[0] == b[0] && b[0] == c[0] { BeforeTransitive(a[1..], b[1..], c[1..]); }
  }

  lemma {:induction false} BeforeTotal(a: string, b: string)
    ensures a == b || Before(a, b) || Before(b, a)
    ensures !(Before(a, b) && Before(b, a))
    ensures !Before(a, a)
  {
    if a != "" {
      BeforeTotal(a[1..], a[1..]);
      if b != "" && a[0] == b[0] {
        BeforeTotal(a[1..], b[1..]);
        assert a == [a[0]] + a[1..] && b == [b[0]] + b[1..];
      }
    }
  }

  lemma LessTransitive(a: Item, b: Item, c: Item, descending: bool)
    requires Less(a, b, descending) && Less(b, c, descending)
    ensures Less(a, c, descending)
  {
    if a.time == b.time == c.time {
      if descending { BeforeTransitive(a.id, b.id, c.id); } else { BeforeTransitive(c.id, b.id, a.id); }
    }
  }

  lemma LessTotal(a: Item, b: Item, descending: bool)
    ensures a == b || Less(a, b, descending) || Less(b, a, descending)
    ensures !(Less(a, b, descending) && Less(b, a, descending))
    ensures !Less(a, a, descending)
  {
    BeforeTotal(a.id, b.id);
    BeforeTotal(a.id, a.id);
  }

  ghost predicate Sorted(s: seq<Item>, descending: bool) {
    forall i, j :: 0 <= i < j < |s| ==> Less(s[i], s[j], descending)
  }

  ghost function Elements(s: seq<Item>): set<Item> { set x | x in s }

  // ---------------------------------------------------------------------------------------------
  // One page
  // ---------------------------------------------------------------------------------------------

  predicate Past(cursor: Option<Item>, x: Item, descending: bool) { cursor.None? || Less(cursor.value, x, descending) }

  /** A page of a set of items: the first `limit` (all of them for 0) past the cursor, in order, and
      a next cursor exactly when more are left. */
  ghost predicate IsPage(items: set<Item>, cursor: Option<Item>, limit: nat, descending: bool, page: seq<Item>,
      next: Option<Item>) {
    && Sorted(page, descending)
    && (forall x :: x in page ==> x in items && Past(cursor, x, descending))
    && (forall x :: x in items && Past(cursor, x, descending) && x !in page
                    ==> next.Some? && Less(next.value, x, descending))
    && (limit > 0 ==> |page| <= limit)
    && (next.Some? ==> limit > 0 && |page| == limit && next.value == page[limit - 1]
                       && exists x :: x in items && Less(next.value, x, descending))
  }

  /** Puts one item where it belongs. */
  method Insert(s: seq<Item>, x: Item, descending: bool) returns (r: seq<Item>)
    requires Sorted(s, descending) && x !in s
    ensures Sorted(r, descending) && Elements(r) == Elements(s) + {x} && |r| == |s| + 1
  {
    var i := 0;
    while i < |s| && Less(s[i], x, descending)
      invariant 0 <= i <= |s|
      invariant forall j :: 0 <= j < i ==> Less(s[j], x, descending)
    {
      i := i + 1;
    }
    if i < |s| { LessTotal(s[i], x, descending); }
    forall j | i <= j < |s| ensures Less(x, s[j], descending) {
      if j > i { LessTransitive(x, s[i], s[j], descending); }
    }
    r := s[..i] + [x] + s[i..];
  }

  method Sort(items: seq<Item>, descending: bool) returns (r: seq<Item>)
    requires forall i, j :: 0 <= i < j < |items| ==> items[i] != items[j]
    ensures Sorted(r, descending) && Elements(r) == Elements(items)
  {
    r := [];
    for n := 0 to |items|
      invariant Sorted(r, descending) && Elements(r) == Elements(items[..n])
    {
      assert items[n] !in Elements(items[..n]);
      assert items[n] !in Elements(r);
      r := Insert(r, items[n], descending);
      assert items[..n + 1] == items[..n] + [items[n]];
    }
    assert items[..|items|] == items;
  }

  /** The items past the cursor, in order. */
  method Skip(sorted: seq<Item>, cursor: Option<Item>, descending: bool) returns (r: seq<Item>)
    requires Sorted(sorted, descending)
    ensures Sorted(r, descending)
    ensures forall x :: x in r <==> x in sorted && Past(cursor, x, descending)
  {
    r := [];
    for n := 0 to |sorted|
      invariant Sorted(r, descending)
      invariant forall x :: x in r <==> x in sorted[..n] && Past(cursor, x, descending)
    {
      if Past(cursor, sorted[n], descending) {
        forall i | 0 <= i < |r| ensures Less(r[i], sorted[n], descending) {
          assert r[i] in sorted[..n];
        }
        r := r + [sorted[n]];
      }
    }
  }

  /** The sandbox listing: the records sort into a page, whatever order they arrive in. */
  method List(records: seq<Item>, cursor: Option<Item>, limit: nat, descending: bool)
      returns (page: seq<Item>, next: Option<Item>)
    requires forall i, j :: 0 <= i < j < |records| ==> records[i].id != records[j].id
    ensures IsPage(Elements(records), cursor, limit, descending, page, next)
    ensures forall i, j :: 0 <= i < j < |page| && page[i].time != page[j].time
                           ==> (descending <==> page[i].time > page[j].time)
    ensures forall i, j :: 0 <= i < j < |page| && page[i].time == page[j].time
                           ==> if descending then Before(page[i].id, page[j].id) else Before(page[j].id, page[i].id)
  {
    var items := Sort(records, descending);
    assert forall x :: x in items <==> x in Elements(items);
    var all := Skip(items, cursor, descending);
    page, next := all, None;
    if limit > 0 && |all| > limit {
      page := all[..limit];
      next := Some(page[limit - 1]);
      assert all[limit] in all;
    }
  }

  // ---------------------------------------------------------------------------------------------
  // A whole listing
  // ---------------------------------------------------------------------------------------------

  /** One request of a listing: the items there were at that moment, and what it got. */
  datatype Round = Round(items: set<Item>, limit: nat, page: seq<Item>, next: Option<Item>)

  /** The client passes each next token on to the following request. */
  ghost predicate IsWalk(rounds: seq<Round>, cursor: Option<Item>, descending: bool)
    decreases |rounds|
  {
    rounds != [] ==>
      && IsPage(rounds[0].items, cursor, rounds[0].limit, descending, rounds[0].page, rounds[0].next)
      && (|rounds| > 1 ==> rounds[0].next.Some?)
      && IsWalk(rounds[1..], rounds[0].next, descending)
  }

  function Output(rounds: seq<Round>): seq<Item> {
    if rounds == [] then [] else rounds[0].page + Output(rounds[1..])
  }

  /** Whatever appears or vanishes between the pages, the pages together are one strictly ordered
      list, so nothing is listed twice. */
  lemma {:induction false} WalkIsOrdered(rounds: seq<Round>, cursor: Option<Item>, descending: bool)
    requires IsWalk(rounds, cursor, descending)
    ensures Sorted(Output(rounds), descending)
    ensures forall x :: x in Output(rounds) ==> Past(cursor, x, descending)
    decreases |rounds|
  {
    if rounds != [] {
      var page, rest := rounds[0].page, Output(rounds[1..]);
      WalkIsOrdered(rounds[1..], rounds[0].next, descending);
      forall x, y | x in page && y in rest ensures Less(x, y, descending) && Past(cursor, y, descending) {
        BeyondThePage(rounds[0], cursor, descending, x, y);
      }
      assert forall x :: x in page + rest <==> x in page || x in rest;
    }
  }

  lemma BeyondThePage(round: Round, cursor: Option<Item>, descending: bool, x: Item, y: Item)
    requires IsPage(round.items, cursor, round.limit, descending, round.page, round.next)
    requires x in round.page && round.next.Some? && Less(round.next.value, y, descending)
    ensures Less(x, y, descending) && Past(cursor, y, descending)
  {
    var last := round.page[round.limit - 1];
    assert last in round.page;
    if x != last { LessTransitive(x, last, y, descending); }
    if cursor.Some? { LessTransitive(cursor.value, last, y, descending); }
  }

  /** An item that is there throughout a finished listing is listed. */
  lemma {:induction false} StableItemListed(rounds: seq<Round>, cursor: Option<Item>, descending: bool, x: Item)
    requires IsWalk(rounds, cursor, descending) && rounds != [] && rounds[|rounds| - 1].next.None?
    requires Past(cursor, x, descending) && forall k :: 0 <= k < |rounds| ==> x in rounds[k].items
    ensures x in Output(rounds)
    decreases |rounds|
  {
    if x !in rounds[0].page {
      assert rounds[0].next.Some? && Less(rounds[0].next.value, x, descending);
      StableItemListed(rounds[1..], rounds[0].next, descending, x);
    }
  }

  /** A finished listing from the start returns every item that is present throughout exactly once,
      in order, for any limits and either direction. */
  lemma ListedExactlyOnce(rounds: seq<Round>, descending: bool, x: Item)
    requires IsWalk(rounds, None, descending) && rounds != [] && rounds[|rounds| - 1].next.None?
    requires forall k :: 0 <= k < |rounds| ==> x in rounds[k].items
    ensures Sorted(Output(rounds), descending)
    ensures exists i :: 0 <= i < |Output(rounds)| && Output(rounds)[i] == x
                        && forall j :: 0 <= j < |Output(rounds)| && Output(rounds)[j] == x ==> j == i
  {
    WalkIsOrdered(rounds, None, descending);
    StableItemListed(rounds, None, descending, x);
    var all := Output(rounds);
    var i :| 0 <= i < |all| && all[i] == x;
    forall j | 0 <= j < |all| && all[j] == x ensures j == i {
      LessTotal(x, x, descending);
    }
  }

  // ---------------------------------------------------------------------------------------------
  // Tokens
  // ---------------------------------------------------------------------------------------------

  /** The timestamp format, as far as cursors rely on it: text that reads back and has no underscore. */
  datatype Clock = Clock(format: int -> string, parse: string -> Option<int>)

  ghost predicate Reads(clock: Clock, t: int) {
    clock.parse(clock.format(t)) == Some(t) && '_' !in clock.format(t)
  }

  predicate Hex(c: char) { '0' <= c <= '9' || 'a' <= c <= 'f' }

  /** A UUID in canonical form. */
  predicate Canonical(id: string) {
    |id| == 36 && forall i :: 0 <= i < 36 ==> if i in {8, 13, 18, 23} then id[i] == '-' else Hex(id[i])
  }

  /** Splits at each double underscore, from the left. */
  function SplitMark(s: string): (r: seq<string>)
    ensures |r| >= 1
  {
    if |s| < 2 then [s]
    else if s[..2] == "__" then [""] + SplitMark(s[2..])
    else var rest := SplitMark(s[1..]); [[s[0]] + rest[0]] + rest[1..]
  }

  lemma {:induction false} SplitAtMark(a: string, b: string)
    requires '_' !in a
    ensures SplitMark(a + "__" + b) == [a] + SplitMark(b)
  {
    var s := a + "__" + b;
    if a == "" {
      assert s[..2] == "__" && s[2..] == b;
    } else {
      assert s[0] == a[0] && s[0] in a;
      assert s[1..] == a[1..] + "__" + b;
      SplitAtMark(a[1..], b);
      assert s[..2][0] == s[0] && [a[0]] + a[1..] == a;
    }
  }

  lemma {:induction false} SplitPlain(a: string)
    requires '_' !in a
    ensures SplitMark(a) == [a]
  {
    if |a| >= 2 {
      SplitPlain(a[1..]);
      assert a[..2][0] == a[0] && a[0] in a && [a[0]] + a[1..] == a;
    }
  }

  function EncodeCursor(last: Item, descending: bool, clock: Clock): string {
    clock.format(last.time) + "__" + last.id + if descending then "" else "__asc"
  }

  function ParseCursor(token: string, descending: bool, clock: Clock): Option<Item> {
    var parts := SplitMark(token);
    if |parts| != 2 && |parts| != 3 then None
    else if (|parts| == 2) != descending || (|parts| == 3 && parts[2] != "asc") then None
    else
      var stamp := clock.parse(parts[0]);
      if stamp.None? || !Canonical(parts[1]) then None else Some(Item(stamp.value, parts[1]))
  }

  lemma PartsOf(stamp: string, id: string, descending: bool)
    requires '_' !in stamp && '_' !in id
    ensures SplitMark(stamp + "__" + id + if descending then "" else "__asc")
            == if descending then [stamp, id] else [stamp, id, "asc"]
  {
    var tail := if descending then id else id + "__" + "asc";
    assert stamp + "__" + id + (if descending then "" else "__asc") == stamp + "__" + tail;
    SplitAtMark(stamp, tail);
    if descending {
      SplitPlain(id);
    } else {
      SplitAtMark(id, "asc");
      SplitPlain("asc");
    }
  }

  /** A cursor reads back as what was encoded, and only in the direction it was made for. */
  lemma CursorRoundTrip(last: Item, descending: bool, clock: Clock)
    requires Reads(clock, last.time) && Canonical(last.id)
    ensures ParseCursor(EncodeCursor(last, descending, clock), descending, clock) == Some(last)
    ensures ParseCursor(EncodeCursor(last, descending, clock), !descending, clock) == None
  {
    PartsOf(clock.format(last.time), last.id, descending);
  }

  function JoinMark(parts: seq<string>): string
    requires |parts| >= 1
  {
    if |parts| == 1 then parts[0] else parts[0] + "__" + JoinMark(parts[1..])
  }

  lemma {:induction false} JoinOfSplit(s: string)
    ensures JoinMark(SplitMark(s)) == s
  {
    if |s| >= 2 {
      if s[..2] == "__" {
        JoinOfSplit(s[2..]);
        assert SplitMark(s)[1..] == SplitMark(s[2..]) && s == "__" + s[2..];
      } else {
        JoinOfSplit(s[1..]);
        assert SplitMark(s)[1..] == SplitMark(s[1..])[1..] && s == [s[0]] + s[1..];
      }
    }
  }

  /** A cursor is a time stamp, a double underscore, a canonical id and, in ascending listings, a mark.
      Every such text is accepted and reads as its stamp and its id; nothing else is accepted. */
  lemma CursorAccepted(token: string, descending: bool, clock: Clock, x: Item)
    requires forall s :: clock.parse(s).Some? ==> '_' !in s
    ensures ParseCursor(token, descending, clock) == Some(x)
            <==> Canonical(x.id) && exists stamp: string ::
                 clock.parse(stamp) == Some(x.time) && token == stamp + "__" + x.id + if descending then "" else "__asc"
  {
    if ParseCursor(token, descending, clock) == Some(x) {
      var parts := SplitMark(token);
      JoinOfSplit(token);
      assert token == parts[0] + "__" + x.id + if descending then "" else "__asc" by {
        if !descending { assert JoinMark(parts[1..]) == parts[1] + "__" + JoinMark(parts[2..]); }
      }
    }
    if Canonical(x.id) {
      forall stamp: string
        | clock.parse(stamp) == Some(x.time) && token == stamp + "__" + x.id + if descending then "" else "__asc"
        ensures ParseCursor(token, descending, clock) == Some(x)
      {
        PartsOf(stamp, x.id, descending);
      }
    }
  }

  /** The snapshot cursor is cut at its first double underscore only. */
  function ParseSnapshotCursor(token: string, clock: Clock): Option<Item> {
    var cut := FirstPair(token, '_');
    if cut == |token| then None
    else
      var stamp, name := clock.parse(token[..cut]), token[cut + 2..];
      if stamp.None? || name == "" then None else Some(Item(stamp.value, name))
  }

  /** Any non-empty snapshot id survives, even one with double underscores. */
  lemma SnapshotCursorRoundTrip(last: Item, clock: Clock)
    requires Reads(clock, last.time) && last.id != ""
    ensures ParseSnapshotCursor(EncodeCursor(last, true, clock), clock) == Some(last)
  {
    var stamp := clock.format(last.time);
    FirstPairAfter(stamp, last.id, '_');
    var token := EncodeCursor(last, true, clock);
    assert token == stamp + "__" + last.id && token[..|stamp|] == stamp && token[|stamp| + 2..] == last.id;
  }
}
