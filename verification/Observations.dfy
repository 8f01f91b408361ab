/**
 Committing a staged batch of source observations. Both stores run the same loop; they differ in how
 they turn an event's identity into a key. The row store even has two keys: rows are found by a pair,
 tombstones are filed under one joined text.
 */
module Observations {
  import opened Options

  datatype Identity = Identity(id: string, occurrence: Option<string>)

  datatype Event = Event(
    identity: Identity, calendar: string, start: int, end: int, deleted: bool, rev: Option<string>, body: string)

  datatype Mode = Incremental | Full(start: int, end: int)

  predicate InWindow(mode: Mode, e: Event) { mode.Full? && e.end > mode.start && e.start < mode.end }

  function AsTombstone(e: Event): Event { e.(deleted := true) }

  /** The tombstone of a staged deletion: what was stored, with the newest known revision. */
  function Buried(stored: Option<Event>, e: Event): Event {
    var base := if stored.Some? then stored.value else e;
    base.(deleted := true, rev := if e.rev.Some? then e.rev else base.rev)
  }

  /** What is stored, and what the commit will report as removed. */
  datatype Table<K> = Table(stored: map<K, Event>, removed: map<K, Event>)

  /** A full traversal first takes everything in its window out. */
  function Opened<K>(stored: map<K, Event>, mode: Mode): Table<K> {
    Table(map k | k in stored && !InWindow(mode, stored[k]) :: stored[k],
          map k | k in stored && InWindow(mode, stored[k]) :: AsTombstone(stored[k]))
  }

  function Lookup<K>(m: map<K, Event>, k: K): Option<Event> { if k in m then Some(m[k]) else None }

  function StageOne<K>(keyOf: Identity -> K, t: Table<K>, e: Event): Table<K> {
    var key := keyOf(e.identity);
    if e.deleted then Table(t.stored - {key}, t.removed[key := Buried(Lookup(t.stored, key), e)])
    else Table(t.stored[key := e], t.removed - {key})
  }

  function StageAll<K>(keyOf: Identity -> K, t: Table<K>, staged: seq<Event>): Table<K> {
    if staged == [] then t
    else StageOne(keyOf, StageAll(keyOf, t, staged[..|staged| - 1]), staged[|staged| - 1])
  }

  function Committed<K>(keyOf: Identity -> K, stored: map<K, Event>, mode: Mode, staged: seq<Event>): Table<K> {
    StageAll(keyOf, Opened(stored, mode), staged)
  }

  ghost predicate Meets(start: int, end: int, from: int, to: int) { exists x :: Inside(x, start, end) && Inside(x, from, to) }

  predicate Inside(x: int, start: int, end: int) { start <= x < end }

  /** A full traversal covers the events that share an instant with its window, and those without duration that lie
      strictly inside it; an incremental one covers none. */
  lemma InWindowExactly(mode: Mode, e: Event)
    requires e.start <= e.end && (mode.Full? ==> mode.start < mode.end)
    ensures InWindow(mode, e) <==>
            mode.Full? && (if e.start < e.end then Meets(e.start, e.end, mode.start, mode.end) else mode.start < e.start < mode.end)
  {
    if mode.Full? && e.start < e.end && InWindow(mode, e) {
      var x := if e.start < mode.start then mode.start else e.start;
      assert Inside(x, e.start, e.end) && Inside(x, mode.start, mode.end);
    }
  }

  /* ----- every key ends up on exactly one side, and the last staged event decides ----- */

  ghost predicate Mentions<K>(keyOf: Identity -> K, staged: seq<Event>, key: K) {
    exists i :: 0 <= i < |staged| && keyOf(staged[i].identity) == key
  }

  /** The last staged event under the key is at position `i`. */
  ghost predicate LastMention<K>(keyOf: Identity -> K, staged: seq<Event>, key: K, i: int) {
    && 0 <= i < |staged| && keyOf(staged[i].identity) == key
    && forall j :: i < j < |staged| ==> keyOf(staged[j].identity) != key
  }

  lemma {:induction false} OneSide<K>(keyOf: Identity -> K, stored: map<K, Event>, mode: Mode, staged: seq<Event>, key: K)
    ensures var t := Committed(keyOf, stored, mode, staged);
            && !(key in t.stored && key in t.removed)
            && (key in t.stored || key in t.removed <==> key in stored || Mentions(keyOf, staged, key))
  {
    if staged != [] {
      var n := |staged| - 1;
      OneSide(keyOf, stored, mode, staged[..n], key);
      if Mentions(keyOf, staged[..n], key) {
        var i :| 0 <= i < n && keyOf(staged[..n][i].identity) == key;
        assert keyOf(staged[i].identity) == key;
      }
      if Mentions(keyOf, staged, key) && keyOf(staged[n].identity) != key {
        var i :| 0 <= i < |staged| && keyOf(staged[i].identity) == key;
        assert keyOf(staged[..n][i].identity) == key;
      }
    }
  }

  /** A key the batch does not mention keeps its event, or loses it to the window. */
  lemma {:induction false} Unmentioned<K>(keyOf: Identity -> K, stored: map<K, Event>, mode: Mode, staged: seq<Event>, key: K)
    requires !Mentions(keyOf, staged, key)
    ensures var t := Committed(keyOf, stored, mode, staged);
            && Lookup(t.stored, key) == (if key in stored && !InWindow(mode, stored[key]) then Some(stored[key]) else None)
            && Lookup(t.removed, key) ==
                 (if key in stored && InWindow(mode, stored[key]) then Some(stored[key].(deleted := true)) else None)
  {
    if staged != [] {
      var n := |staged| - 1;
      assert forall i :: 0 <= i < n ==> staged[..n][i] == staged[i];
      assert keyOf(staged[n].identity) != key;
      Unmentioned(keyOf, stored, mode, staged[..n], key);
    }
  }

  /** The last staged event under a key wins: it is stored, or its tombstone is reported. */
  lemma {:induction false} LastWins<K>(keyOf: Identity -> K, stored: map<K, Event>, mode: Mode, staged: seq<Event>, key: K, i: int)
    requires LastMention(keyOf, staged, key, i)
    ensures var t := Committed(keyOf, stored, mode, staged);
            if !staged[i].deleted then key in t.stored && t.stored[key] == staged[i] && key !in t.removed
            else
              && key !in t.stored && key in t.removed && t.removed[key].deleted
              && (staged[i].rev.Some? ==> t.removed[key].rev == staged[i].rev)
    decreases |staged|
  {
    var n := |staged| - 1;
    if i < n {
      assert keyOf(staged[n].identity) != key;
      assert LastMention(keyOf, staged[..n], key, i);
      LastWins(keyOf, stored, mode, staged[..n], key, i);
    }
  }

  /** What the key held before its last mention: the event staged last under it, nothing if that was a deletion, and
      without any the stored event outside the window. */
  ghost predicate Stood<K>(keyOf: Identity -> K, stored: map<K, Event>, mode: Mode, staged: seq<Event>, key: K, e: Event) {
    || (exists j :: LastMention(keyOf, staged, key, j) && !staged[j].deleted && staged[j] == e)
    || (!Mentions(keyOf, staged, key) && key in stored && !InWindow(mode, stored[key]) && stored[key] == e)
  }

  lemma StoodIsStored<K>(keyOf: Identity -> K, stored: map<K, Event>, mode: Mode, staged: seq<Event>, key: K, e: Event)
    ensures Stood(keyOf, stored, mode, staged, key, e) <==>
            Lookup(Committed(keyOf, stored, mode, staged).stored, key) == Some(e)
  {
    if Mentions(keyOf, staged, key) {
      var j := LastOf(keyOf, staged, key);
      LastWins(keyOf, stored, mode, staged, key, j);
      assert forall k :: LastMention(keyOf, staged, key, k) ==> k == j;
    } else {
      Unmentioned(keyOf, stored, mode, staged, key);
      assert forall j :: !LastMention(keyOf, staged, key, j);
    }
  }

  lemma {:induction false} LastOf<K>(keyOf: Identity -> K, staged: seq<Event>, key: K) returns (j: int)
    requires Mentions(keyOf, staged, key)
    ensures LastMention(keyOf, staged, key, j)
    decreases |staged|
  {
    var n := |staged| - 1;
    if keyOf(staged[n].identity) == key {
      j := n;
    } else {
      var i :| 0 <= i < |staged| && keyOf(staged[i].identity) == key;
      assert keyOf(staged[..n][i].identity) == key;
      j := LastOf(keyOf, staged[..n], key);
    }
  }

  /** The tombstone of a deletion shows what stood there before, or else the deletion itself, with the revision of the
      deletion if it has one. */
  lemma {:induction false} TombstoneShows<K>(keyOf: Identity -> K, stored: map<K, Event>, mode: Mode, staged: seq<Event>,
                                             key: K, i: int, shown: Event)
    requires LastMention(keyOf, staged, key, i) && staged[i].deleted
    requires Stood(keyOf, stored, mode, staged[..i], key, shown)
          || (shown == staged[i] && forall e :: !Stood(keyOf, stored, mode, staged[..i], key, e))
    ensures var t := Committed(keyOf, stored, mode, staged);
            && key in t.removed
            && t.removed[key].(deleted := shown.deleted, rev := shown.rev) == shown && t.removed[key].deleted
            && t.removed[key].rev == if staged[i].rev == None then shown.rev else staged[i].rev
    decreases |staged|
  {
    var n := |staged| - 1;
    if i < n {
      assert keyOf(staged[n].identity) != key && staged[..n][..i] == staged[..i];
      assert LastMention(keyOf, staged[..n], key, i);
      TombstoneShows(keyOf, stored, mode, staged[..n], key, i, shown);
    } else {
      StoodIsStored(keyOf, stored, mode, staged[..n], key, shown);
      var before := Lookup(Committed(keyOf, stored, mode, staged[..n]).stored, key);
      if before.Some? { StoodIsStored(keyOf, stored, mode, staged[..n], key, before.value); }
    }
  }

  /* ----- the two stores ----- */

  const SEPARATOR := 0x1f as char

  /** Swift compares and hashes the keys of a dictionary up to canonical equivalence; a normal form stands for that. */
  type Normal = string -> string

  function OccurrenceText(o: Option<string>): string { if o.Some? then o.value else "" }

  /** The in-memory key: an absent occurrence looks like an empty one. */
  function MemoryKey(nfc: Normal): Identity -> string { (i: Identity) => nfc(i.id + [SEPARATOR] + OccurrenceText(i.occurrence)) }

  function OccurrenceKey(occurrence: Option<string>): string {
    if occurrence.None? then "0" else "1" + occurrence.value
  }

  datatype RowKey = RowKey(id: string, occurrenceKey: string)

  /** The primary key of an observation row. */
  function RowKeyOf(i: Identity): RowKey { RowKey(i.id, OccurrenceKey(i.occurrence)) }

  /** The key under which the row store files a tombstone, a Swift dictionary again. */
  function JoinedKey(nfc: Normal): Identity -> string { (i: Identity) => nfc(i.id + [SEPARATOR] + OccurrenceKey(i.occurrence)) }

  datatype RowTable = RowTable(stored: map<RowKey, Event>, removed: map<string, Event>)

  /** A row in the window whose tombstone is filed under `key`; which one, if there are several, is the
      database's choice. */
  ghost function WindowRow(nfc: Normal, rows: map<RowKey, Event>, mode: Mode, key: string): (k: RowKey)
    requires exists k :: k in rows && InWindow(mode, rows[k]) && JoinedKey(nfc)(rows[k].identity) == key
    ensures k in rows && InWindow(mode, rows[k]) && JoinedKey(nfc)(rows[k].identity) == key
  {
    var k :| k in rows && InWindow(mode, rows[k]) && JoinedKey(nfc)(rows[k].identity) == key;
    k
  }

  ghost function RowOpened(nfc: Normal, rows: map<RowKey, Event>, mode: Mode): RowTable {
    var keys := set k | k in rows && InWindow(mode, rows[k]) :: JoinedKey(nfc)(rows[k].identity);
    RowTable(map k | k in rows && !InWindow(mode, rows[k]) :: rows[k],
             map key | key in keys :: AsTombstone(rows[WindowRow(nfc, rows, mode, key)]))
  }

  function StageRow(nfc: Normal, t: RowTable, e: Event): RowTable {
    var row, key := RowKeyOf(e.identity), JoinedKey(nfc)(e.identity);
    if e.deleted then RowTable(t.stored - {row}, t.removed[key := Buried(Lookup(t.stored, row), e)])
    else RowTable(t.stored[row := e], t.removed - {key})
  }

  function StageRows(nfc: Normal, t: RowTable, staged: seq<Event>): RowTable {
    if staged == [] then t else StageRow(nfc, StageRows(nfc, t, staged[..|staged| - 1]), staged[|staged| - 1])
  }

  ghost function RowCommitted(nfc: Normal, rows: map<RowKey, Event>, mode: Mode, staged: seq<Event>): RowTable {
    StageRows(nfc, RowOpened(nfc, rows, mode), staged)
  }

  /** What the row store keeps is what a commit keyed by the pair keeps. */
  lemma {:induction false} RowsStored(nfc: Normal, rows: map<RowKey, Event>, mode: Mode, staged: seq<Event>)
    ensures RowCommitted(nfc, rows, mode, staged).stored == Committed(RowKeyOf, rows, mode, staged).stored
  {
    if staged != [] { RowsStored(nfc, rows, mode, staged[..|staged| - 1]); }
  }

  /** The inverse of the row codec; `None` for a corrupt record. The leading "1" is looked for as a Swift
      character, which swallows a following mark that joins it. */
  function OccurrenceFrom(joins: char -> bool, key: string): Option<Option<string>> {
    if key == "0" then Some(None)
    else if key != "" && key[0] == '1' && (|key| == 1 || !joins(key[1])) then Some(Some(key[1..]))
    else None
  }

  /** An occurrence comes back exactly if it does not start with a mark that joins the preceding character. */
  lemma OccurrenceRoundTrip(joins: char -> bool, occurrence: Option<string>)
    ensures OccurrenceFrom(joins, OccurrenceKey(occurrence)) == Some(occurrence) <==>
            occurrence.None? || occurrence.value == "" || !joins(occurrence.value[0])
  {
    if occurrence.Some? { assert ("1" + occurrence.value)[1..] == occurrence.value; }
  }

  lemma OccurrenceKeysDistinct(a: Option<string>, b: Option<string>)
    ensures OccurrenceKey(a) == OccurrenceKey(b) <==> a == b
  {
    OccurrenceRoundTrip(_ => false, a);
    OccurrenceRoundTrip(_ => false, b);
  }

  lemma RowKeysDistinct(a: Identity, b: Identity)
    ensures RowKeyOf(a) == RowKeyOf(b) <==> a == b
  {
    OccurrenceKeysDistinct(a.occurrence, b.occurrence);
  }

  /** The separator is a starter that takes part in no composition: normalising works piece by piece. */
  ghost predicate Segmented(nfc: Normal) {
    && (forall x, y :: nfc(x + [SEPARATOR] + y) == nfc(x) + [SEPARATOR] + nfc(y))
    && (forall x :: SEPARATOR !in x ==> SEPARATOR !in nfc(x))
  }

  lemma SplitOnce(x: string, y: string, u: string, v: string)
    requires SEPARATOR !in x && SEPARATOR !in u
    ensures x + [SEPARATOR] + y == u + [SEPARATOR] + v <==> x == u && y == v
  {
    var l, r := x + [SEPARATOR] + y, u + [SEPARATOR] + v;
    assert l[|x|] == SEPARATOR && forall i :: 0 <= i < |x| ==> l[i] == x[i];
    assert r[|u|] == SEPARATOR && forall i :: 0 <= i < |u| ==> r[i] == u[i];
    if l == r {
      assert x == l[..|x|] && u == r[..|u|];
      assert y == l[|x| + 1..] && v == r[|u| + 1..];
    }
  }

  /** Ids without the separator share an in-memory key exactly if they are canonically equivalent and so are the
      occurrences, an absent one being taken as empty. */
  lemma MemoryKeysCollide(nfc: Normal, a: Identity, b: Identity)
    requires Segmented(nfc) && (0x1f as char) !in a.id && (0x1f as char) !in b.id
    ensures MemoryKey(nfc)(a) == MemoryKey(nfc)(b) <==>
            nfc(a.id) == nfc(b.id) && nfc(OccurrenceText(a.occurrence)) == nfc(OccurrenceText(b.occurrence))
  {
    SplitOnce(nfc(a.id), nfc(OccurrenceText(a.occurrence)), nfc(b.id), nfc(OccurrenceText(b.occurrence)));
  }

  /** ... and a joined row key exactly if they and the occurrence keys are canonically equivalent. */
  lemma JoinedKeysCollide(nfc: Normal, a: Identity, b: Identity)
    requires Segmented(nfc) && (0x1f as char) !in a.id && (0x1f as char) !in b.id
    ensures JoinedKey(nfc)(a) == JoinedKey(nfc)(b) <==>
            nfc(a.id) == nfc(b.id) && nfc(OccurrenceKey(a.occurrence)) == nfc(OccurrenceKey(b.occurrence))
  {
    SplitOnce(nfc(a.id), nfc(OccurrenceKey(a.occurrence)), nfc(b.id), nfc(OccurrenceKey(b.occurrence)));
  }

  ghost predicate InjectiveOn<K>(keyOf: Identity -> K, who: set<Identity>) {
    forall a, b :: a in who && b in who && keyOf(a) == keyOf(b) ==> a == b
  }

  /** `m` is the table `plain`, keyed by identity, under the keys of one store. */
  ghost predicate Represents<K>(keyOf: Identity -> K, who: set<Identity>, m: map<K, Event>, plain: map<Identity, Event>) {
    && (forall i :: i in plain ==> i in who && plain[i].identity == i && keyOf(i) in m && m[keyOf(i)] == plain[i])
    && (forall k :: k in m ==> m[k].identity in plain && keyOf(m[k].identity) == k)
  }

  ghost predicate TableRepresents<K>(keyOf: Identity -> K, who: set<Identity>, t: Table<K>, plain: Table<Identity>) {
    Represents(keyOf, who, t.stored, plain.stored) && Represents(keyOf, who, t.removed, plain.removed)
  }

  function Itself(i: Identity): Identity { i }

  predicate Concerns(who: set<Identity>, staged: seq<Event>) {
    forall i :: 0 <= i < |staged| ==> staged[i].identity in who
  }

  lemma PutRepresents<K>(keyOf: Identity -> K, who: set<Identity>, m: map<K, Event>, plain: map<Identity, Event>, e: Event)
    requires InjectiveOn(keyOf, who) && e.identity in who && Represents(keyOf, who, m, plain)
    ensures Represents(keyOf, who, m[keyOf(e.identity) := e], plain[e.identity := e])
  {
  }

  lemma DropRepresents<K>(keyOf: Identity -> K, who: set<Identity>, m: map<K, Event>, plain: map<Identity, Event>, i: Identity)
    requires InjectiveOn(keyOf, who) && i in who && Represents(keyOf, who, m, plain)
    ensures Represents(keyOf, who, m - {keyOf(i)}, plain - {i})
    ensures Lookup(m, keyOf(i)) == Lookup(plain, i)
  {
  }

  lemma StageOneRepresents<K>(keyOf: Identity -> K, who: set<Identity>, t: Table<K>, plain: Table<Identity>, e: Event)
    requires InjectiveOn(keyOf, who) && e.identity in who && TableRepresents(keyOf, who, t, plain)
    ensures TableRepresents(keyOf, who, StageOne(keyOf, t, e), StageOne(Itself, plain, e))
  {
    var i := e.identity;
    DropRepresents(keyOf, who, t.stored, plain.stored, i);
    DropRepresents(keyOf, who, t.removed, plain.removed, i);
    var buried := Buried(Lookup(plain.stored, i), e);
    PutRepresents(keyOf, who, t.stored, plain.stored, e);
    PutRepresents(keyOf, who, t.removed, plain.removed, buried);
  }

  lemma {:induction false} StageAllRepresents<K>(keyOf: Identity -> K, who: set<Identity>, t: Table<K>, plain: Table<Identity>, staged: seq<Event>)
    requires InjectiveOn(keyOf, who) && Concerns(who, staged) && TableRepresents(keyOf, who, t, plain)
    ensures TableRepresents(keyOf, who, StageAll(keyOf, t, staged), StageAll(Itself, plain, staged))
  {
    if staged != [] {
      var n := |staged| - 1;
      StageAllRepresents(keyOf, who, t, plain, staged[..n]);
      StageOneRepresents(keyOf, who, StageAll(keyOf, t, staged[..n]), StageAll(Itself, plain, staged[..n]), staged[n]);
    }
  }

  /** Where keys do not collide, a commit does what it would do keyed by identity. */
  lemma CommitRepresents<K>(keyOf: Identity -> K, who: set<Identity>, stored: map<K, Event>, plain: map<Identity, Event>,
                            mode: Mode, staged: seq<Event>)
    requires InjectiveOn(keyOf, who) && Concerns(who, staged) && Represents(keyOf, who, stored, plain)
    ensures TableRepresents(keyOf, who, Committed(keyOf, stored, mode, staged), Committed(Itself, plain, mode, staged))
  {
    var t, p := Opened(stored, mode), Opened(plain, mode);
    assert TableRepresents(keyOf, who, t, p);
    StageAllRepresents(keyOf, who, t, p, staged);
  }

  /** The row table stands for the table `plain`, keyed by identity. */
  ghost predicate RowsRepresent(nfc: Normal, who: set<Identity>, t: RowTable, plain: Table<Identity>) {
    Represents(RowKeyOf, who, t.stored, plain.stored) && Represents(JoinedKey(nfc), who, t.removed, plain.removed)
  }

  lemma RowKeysInjective(who: set<Identity>)
    ensures InjectiveOn(RowKeyOf, who)
  {
    forall a, b | a in who && b in who && RowKeyOf(a) == RowKeyOf(b) ensures a == b { RowKeysDistinct(a, b); }
  }

  lemma RowOpenedRepresents(nfc: Normal, who: set<Identity>, rows: map<RowKey, Event>, plain: map<Identity, Event>, mode: Mode)
    requires InjectiveOn(JoinedKey(nfc), who) && Represents(RowKeyOf, who, rows, plain)
    ensures RowsRepresent(nfc, who, RowOpened(nfc, rows, mode), Opened(plain, mode))
  {
    var t, p := RowOpened(nfc, rows, mode), Opened(plain, mode);
    forall i | i in p.removed ensures JoinedKey(nfc)(i) in t.removed && t.removed[JoinedKey(nfc)(i)] == p.removed[i] {
      var k := RowKeyOf(i);
      assert k in rows && InWindow(mode, rows[k]) && JoinedKey(nfc)(rows[k].identity) == JoinedKey(nfc)(i);
      var other := WindowRow(nfc, rows, mode, JoinedKey(nfc)(i));
      assert rows[other].identity == i;
    }
    forall key | key in t.removed ensures t.removed[key].identity in p.removed && JoinedKey(nfc)(t.removed[key].identity) == key {
      var k := WindowRow(nfc, rows, mode, key);
      assert plain[rows[k].identity] == rows[k];
    }
  }

  lemma StageRowRepresents(nfc: Normal, who: set<Identity>, t: RowTable, plain: Table<Identity>, e: Event)
    requires InjectiveOn(JoinedKey(nfc), who) && e.identity in who && RowsRepresent(nfc, who, t, plain)
    ensures RowsRepresent(nfc, who, StageRow(nfc, t, e), StageOne(Itself, plain, e))
  {
    var i := e.identity;
    RowKeysInjective(who);
    DropRepresents(RowKeyOf, who, t.stored, plain.stored, i);
    DropRepresents(JoinedKey(nfc), who, t.removed, plain.removed, i);
    PutRepresents(RowKeyOf, who, t.stored, plain.stored, e);
    PutRepresents(JoinedKey(nfc), who, t.removed, plain.removed, Buried(Lookup(plain.stored, i), e));
  }

  /** Where the joined keys do not collide, the row store's commit does what it would do keyed by identity. */
  lemma {:induction false} RowCommitRepresents(nfc: Normal, who: set<Identity>, rows: map<RowKey, Event>, plain: map<Identity, Event>,
                                               mode: Mode, staged: seq<Event>)
    requires InjectiveOn(JoinedKey(nfc), who) && Concerns(who, staged) && Represents(RowKeyOf, who, rows, plain)
    ensures RowsRepresent(nfc, who, RowCommitted(nfc, rows, mode, staged), Committed(Itself, plain, mode, staged))
  {
    if staged == [] {
      RowOpenedRepresents(nfc, who, rows, plain, mode);
    } else {
      var n := |staged| - 1;
      RowCommitRepresents(nfc, who, rows, plain, mode, staged[..n]);
      StageRowRepresents(nfc, who, RowCommitted(nfc, rows, mode, staged[..n]), Committed(Itself, plain, mode, staged[..n]), staged[n]);
    }
  }

  /** The two stores hold the same observations and report the same tombstones after this batch. */
  ghost predicate SameCommit(nfc: Normal, memory: map<string, Event>, rows: map<RowKey, Event>, mode: Mode, staged: seq<Event>) {
    var m, r := Committed(MemoryKey(nfc), memory, mode, staged), RowCommitted(nfc, rows, mode, staged);
    m.stored.Values == r.stored.Values && m.removed.Values == r.removed.Values
  }

  /** Both stores hold the table `plain`. */
  ghost predicate SameStart(nfc: Normal, who: set<Identity>, memory: map<string, Event>, rows: map<RowKey, Event>, plain: map<Identity, Event>) {
    Represents(MemoryKey(nfc), who, memory, plain) && Represents(RowKeyOf, who, rows, plain)
  }

  lemma SameValues<K, L>(f: Identity -> K, g: Identity -> L, who: set<Identity>, a: map<K, Event>, b: map<L, Event>, plain: map<Identity, Event>)
    requires Represents(f, who, a, plain) && Represents(g, who, b, plain)
    ensures a.Values == b.Values
  {
  }

  lemma AgreeWithoutCollision(nfc: Normal, who: set<Identity>, memory: map<string, Event>, rows: map<RowKey, Event>, plain: map<Identity, Event>,
                              mode: Mode, staged: seq<Event>)
    requires InjectiveOn(MemoryKey(nfc), who) && InjectiveOn(JoinedKey(nfc), who)
    requires Concerns(who, staged) && SameStart(nfc, who, memory, rows, plain)
    ensures SameCommit(nfc, memory, rows, mode, staged)
  {
    CommitRepresents(MemoryKey(nfc), who, memory, plain, mode, staged);
    RowCommitRepresents(nfc, who, rows, plain, mode, staged);
    var p := Committed(Itself, plain, mode, staged);
    var m, r := Committed(MemoryKey(nfc), memory, mode, staged), RowCommitted(nfc, rows, mode, staged);
    SameValues(MemoryKey(nfc), RowKeyOf, who, m.stored, r.stored, p.stored);
    SameValues(MemoryKey(nfc), JoinedKey(nfc), who, m.removed, r.removed, p.removed);
  }

  function Live(i: Identity, body: string): Event { Event(i, "", 0, 1, false, None, body) }

  /** Two identities with one memory key: staging both leaves one event in memory and two rows. */
  lemma CollisionDiffers(nfc: Normal, a: Identity, b: Identity)
    requires a != b && MemoryKey(nfc)(a) == MemoryKey(nfc)(b)
    ensures !SameCommit(nfc, map[], map[], Incremental, [Live(a, ""), Live(b, "")])
  {
    var staged := [Live(a, ""), Live(b, "")];
    RowKeysDistinct(a, b);
    assert LastMention(RowKeyOf, staged, RowKeyOf(a), 0);
    LastWins(RowKeyOf, map[], Incremental, staged, RowKeyOf(a), 0);
    RowsStored(nfc, map[], Incremental, staged);
    var m, r := Committed(MemoryKey(nfc), map[], Incremental, staged), RowCommitted(nfc, map[], Incremental, staged);
    assert r.stored[RowKeyOf(a)] == Live(a, "");
    assert Live(a, "") in r.stored.Values;
    if Live(a, "") in m.stored.Values {
      var k :| k in m.stored && m.stored[k] == Live(a, "");
      assert LastMention(MemoryKey(nfc), staged, MemoryKey(nfc)(a), 1);
      LastWins(MemoryKey(nfc), map[], Incremental, staged, MemoryKey(nfc)(a), 1);
      if k != MemoryKey(nfc)(a) {
        OneSide(MemoryKey(nfc), map[], Incremental, staged, k);
      }
    }
  }

  function Gone(i: Identity): Event { Event(i, "", 0, 1, true, None, "") }

  /** Two identities with one joined key, but two memory keys: deleting both reports two tombstones from memory
      and one from the rows. */
  lemma JoinedCollisionDiffers(nfc: Normal, a: Identity, b: Identity)
    requires a != b && JoinedKey(nfc)(a) == JoinedKey(nfc)(b) && MemoryKey(nfc)(a) != MemoryKey(nfc)(b)
    ensures !SameCommit(nfc, map[], map[], Incremental, [Gone(a), Gone(b)])
  {
    RowsReportOne(nfc, a, b);
    MemoryReportsBoth(nfc, a, b);
  }

  lemma RowsReportOne(nfc: Normal, a: Identity, b: Identity)
    requires a != b && JoinedKey(nfc)(a) == JoinedKey(nfc)(b)
    ensures Gone(a) !in RowCommitted(nfc, map[], Incremental, [Gone(a), Gone(b)]).removed.Values
  {
    var start := RowOpened(nfc, map[], Incremental);
    assert start == RowTable(map[], map[]);
    StageTwoRows(nfc, start, Gone(a), Gone(b));
    var first := StageRow(nfc, start, Gone(a));
    assert first == RowTable(map[], map[JoinedKey(nfc)(a) := Gone(a)]);
    assert StageRow(nfc, first, Gone(b)).removed == map[JoinedKey(nfc)(a) := Gone(b)];
  }

  lemma StageTwoRows(nfc: Normal, t: RowTable, x: Event, y: Event)
    ensures StageRows(nfc, t, [x, y]) == StageRow(nfc, StageRow(nfc, t, x), y)
  {
    assert [x, y][..1] == [x] && [x][..0] == [];
    assert StageRows(nfc, t, [x]) == StageRow(nfc, t, x);
  }

  lemma MemoryReportsBoth(nfc: Normal, a: Identity, b: Identity)
    requires MemoryKey(nfc)(a) != MemoryKey(nfc)(b)
    ensures Gone(a) in Committed(MemoryKey(nfc), map[], Incremental, [Gone(a), Gone(b)]).removed.Values
  {
    var start := Opened<string>(map[], Incremental);
    assert start == Table(map[], map[]);
    var first := StageOne(MemoryKey(nfc), start, Gone(a));
    assert StageAll(MemoryKey(nfc), start, [Gone(a)]) == first by { assert [Gone(a)][..0] == []; }
    assert StageAll(MemoryKey(nfc), start, [Gone(a), Gone(b)]) == StageOne(MemoryKey(nfc), first, Gone(b)) by {
      assert [Gone(a), Gone(b)][..1] == [Gone(a)];
    }
    assert StageOne(MemoryKey(nfc), first, Gone(b)).removed[MemoryKey(nfc)(a)] == Gone(a);
  }

  /** The stores agree on every batch over a set of identities exactly when no two of them share an in-memory
      key and no two of them share a joined row key. */
  lemma StoresAgreeExactly(nfc: Normal, who: set<Identity>)
    ensures InjectiveOn(MemoryKey(nfc), who) && InjectiveOn(JoinedKey(nfc), who) <==>
            forall memory, rows, plain, mode, staged ::
              SameStart(nfc, who, memory, rows, plain) && Concerns(who, staged) ==> SameCommit(nfc, memory, rows, mode, staged)
  {
    if InjectiveOn(MemoryKey(nfc), who) && InjectiveOn(JoinedKey(nfc), who) {
      forall memory, rows, plain, mode, staged | SameStart(nfc, who, memory, rows, plain) && Concerns(who, staged)
        ensures SameCommit(nfc, memory, rows, mode, staged)
      {
        AgreeWithoutCollision(nfc, who, memory, rows, plain, mode, staged);
      }
    } else {
      var staged := DifferingBatch(nfc, who);
      assert SameStart(nfc, who, map[], map[], map[]);
    }
  }

  lemma DifferingBatch(nfc: Normal, who: set<Identity>) returns (staged: seq<Event>)
    requires !InjectiveOn(MemoryKey(nfc), who) || !InjectiveOn(JoinedKey(nfc), who)
    ensures Concerns(who, staged) && !SameCommit(nfc, map[], map[], Incremental, staged)
  {
    if !InjectiveOn(MemoryKey(nfc), who) {
      var a, b :| a in who && b in who && MemoryKey(nfc)(a) == MemoryKey(nfc)(b) && a != b;
      CollisionDiffers(nfc, a, b);
      staged := [Live(a, ""), Live(b, "")];
    } else {
      var a, b :| a in who && b in who && JoinedKey(nfc)(a) == JoinedKey(nfc)(b) && a != b;
      JoinedCollisionDiffers(nfc, a, b);
      staged := [Gone(a), Gone(b)];
    }
  }
}
