/**
 * The note collection of the notes command-line tool, as values: the note
 * record, and what adding, editing, deleting and filtering by date do to
 * an ordered sequence of notes.
 */
module Notes {
  import opened Seqs

  datatype Option<T> = None | Some(value: T)

  /** A local date and time as written by `strftime("%Y-%m-%d %H:%M:%S")`. */
  datatype DateTime = DateTime(year: int, month: int, day: int, hour: int, minute: int, second: int)

  /** A calendar date, the result of `.date()`. */
  datatype Date = Date(year: int, month: int, day: int)

  /** The date part of a timestamp. */
  function DateOf(t: DateTime): Date
  {
    Date(t.year, t.month, t.day)
  }

  /** One stored note: `{"id", "title", "body", "timestamp"}`. */
  datatype Note = Note(id: int, title: string, body: string, timestamp: DateTime)

  /** Some note of `ns` carries the id `id`. */
  predicate HasId(ns: seq<Note>, id: int)
  {
    exists i :: 0 <= i < |ns| && ns[i].id == id
  }

  /** `k` is the position of the first note of `ns` whose id is `id`. */
  ghost predicate IsFirstMatch(ns: seq<Note>, id: int, k: nat)
  {
    k < |ns| && ns[k].id == id && forall j :: 0 <= j < k ==> ns[j].id != id
  }

  /** The position of the first note with the given id, if any. */
  function FindFirst(ns: seq<Note>, id: int): (r: Option<nat>)
    ensures r.Some? ==> IsFirstMatch(ns, id, r.value)
    ensures r.None? <==> !HasId(ns, id)
  {
    if ns == [] then None
    else if ns[0].id == id then Some(0)
    else match FindFirst(ns[1..], id)
      case None => None
      case Some(k) => Some(k + 1)
  }

  /** The collection after `add_note`: a new note whose id is one more than the current count. */
  function Added(ns: seq<Note>, title: string, body: string, now: DateTime): seq<Note>
  {
    ns + [Note(|ns| + 1, title, body, now)]
  }

  /** A note with new title, body and timestamp, keeping its id. */
  function Rewritten(n: Note, title: string, body: string, now: DateTime): Note
  {
    n.(title := title, body := body, timestamp := now)
  }

  /**
   * The collection after `edit_note` finds its note: the first note with the
   * id is rewritten and every other note is left alone.
   */
  function EditFirst(ns: seq<Note>, id: int, title: string, body: string, now: DateTime): (r: seq<Note>)
    ensures |r| == |ns|
    ensures match FindFirst(ns, id)
      case None => r == ns
      case Some(k) => r == ns[k := Rewritten(ns[k], title, body, now)]
  {
    if ns == [] then []
    else if ns[0].id == id then [Rewritten(ns[0], title, body, now)] + ns[1..]
    else [ns[0]] + EditFirst(ns[1..], id, title, body, now)
  }

  /** The test `note["id"] != note_id` of the delete comprehension. */
  function OtherId(id: int): Note -> bool
  {
    (n: Note) => n.id != id
  }

  /** The test `timestamp.date() == target_date` of the read-by-date comprehension. */
  function WrittenOn(d: Date): Note -> bool
  {
    (n: Note) => DateOf(n.timestamp) == d
  }

  /** The collection after `delete_note`: every note with the id is removed. */
  function WithoutId(ns: seq<Note>, id: int): seq<Note>
  {
    Filter(ns, OtherId(id))
  }

  /** The notes `read_note_by_date` reports: those written on the date `d`. */
  function OnDate(ns: seq<Note>, d: Date): seq<Note>
  {
    Filter(ns, WrittenOn(d))
  }

  /** How many notes carry the id `id`. */
  function Matches(ns: seq<Note>, id: int): (c: nat)
    ensures c <= |ns|
    ensures c == 0 <==> !HasId(ns, id)
  {
    if ns == [] then 0
    else (if ns[0].id == id then 1 else 0) + Matches(ns[1..], id)
  }

  /** No two notes share an id. */
  ghost predicate UniqueIds(ns: seq<Note>)
  {
    forall i, j :: 0 <= i < j < |ns| ==> ns[i].id != ns[j].id
  }

  /** The ids are exactly 1, 2, ..., |ns| in order, as after additions only. */
  ghost predicate DenseIds(ns: seq<Note>)
  {
    forall i :: 0 <= i < |ns| ==> ns[i].id == i + 1
  }

  // ---------------------------------------------------------------- add

  /** Adding grows the collection by one note at the end and keeps every earlier note. */
  lemma AddAppends(ns: seq<Note>, title: string, body: string, now: DateTime)
    ensures var r := Added(ns, title, body, now);
      && |r| == |ns| + 1
      && r[..|ns|] == ns
      && r[|ns|] == Note(|ns| + 1, title, body, now)
  {
  }

  /**
   * The new id depends on the length alone: from a single note with id 2,
   * adding gives a second note with id 2.
   */
  lemma AddCanDuplicateId(n: Note, title: string, body: string, now: DateTime)
    requires n.id == 2
    ensures var r := Added([n], title, body, now);
      |r| == 2 && r[0].id == r[1].id == 2 && !UniqueIds(r)
  {
  }

  /** Adding keeps ids unique exactly when no existing note already has id |ns| + 1. */
  lemma AddUniqueIff(ns: seq<Note>, title: string, body: string, now: DateTime)
    requires UniqueIds(ns)
    ensures UniqueIds(Added(ns, title, body, now)) <==> !HasId(ns, |ns| + 1)
  {
    var r := Added(ns, title, body, now);
    if HasId(ns, |ns| + 1) {
      var i :| 0 <= i < |ns| && ns[i].id == |ns| + 1;
      assert r[i].id == r[|ns|].id;
    }
  }

  /** Without deletions the ids stay 1..n, hence unique. */
  lemma AddKeepsDense(ns: seq<Note>, title: string, body: string, now: DateTime)
    requires DenseIds(ns)
    ensures DenseIds(Added(ns, title, body, now)) && UniqueIds(Added(ns, title, body, now))
  {
  }

  /**
   * The scenario of adding A and B, deleting id 1 and adding C: the two
   * remaining notes both have id 2.
   */
  lemma DeleteThenAddReusesId(t1: DateTime, t2: DateTime, t3: DateTime)
    ensures var s2 := Added(Added([], "A", "x", t1), "B", "y", t2);
      var s4 := Added(WithoutId(s2, 1), "C", "z", t3);
      && |s4| == 2
      && s4[0] == Note(2, "B", "y", t2)
      && s4[1] == Note(2, "C", "z", t3)
  {
    var s2 := Added(Added([], "A", "x", t1), "B", "y", t2);
    assert s2 == [Note(1, "A", "x", t1), Note(2, "B", "y", t2)];
    assert !OtherId(1)(s2[0]) && OtherId(1)(s2[1]);
    assert WithoutId(s2, 1) == Filter(s2[1..], OtherId(1));
    assert s2[1..][1..] == [];
    assert Filter(s2[1..], OtherId(1)) == [s2[1]] + Filter([], OtherId(1));
  }

  // ---------------------------------------------------------------- edit

  /** Editing never changes any id, so it keeps both id invariants. */
  lemma EditKeepsIds(ns: seq<Note>, id: int, title: string, body: string, now: DateTime)
    ensures var r := EditFirst(ns, id, title, body, now);
      && (forall j :: 0 <= j < |ns| ==> r[j].id == ns[j].id)
      && (UniqueIds(ns) ==> UniqueIds(r))
      && (DenseIds(ns) ==> DenseIds(r))
  {
  }

  /** When the id is present, exactly one note differs afterwards: the first one with that id. */
  lemma EditChangesOnlyFirst(ns: seq<Note>, id: int, k: nat, title: string, body: string, now: DateTime)
    requires IsFirstMatch(ns, id, k)
    ensures var r := EditFirst(ns, id, title, body, now);
      && r[k] == Note(id, title, body, now)
      && forall j :: 0 <= j < |ns| && j != k ==> r[j] == ns[j]
  {
  }

  // ---------------------------------------------------------------- delete

  /** Deleting removes exactly the notes with the id: the length drops by their number. */
  lemma {:induction false} DeleteLength(ns: seq<Note>, id: int)
    ensures |WithoutId(ns, id)| == |ns| - Matches(ns, id)
  {
    if ns != [] {
      DeleteLength(ns[1..], id);
    }
  }

  /** What deleting keeps: no note with the id, every other note, in the original order. */
  lemma DeleteKeepsOthers(ns: seq<Note>, id: int, n: Note)
    ensures var r := WithoutId(ns, id);
      && (forall i :: 0 <= i < |r| ==> r[i].id != id)
      && (n.id != id ==> multiset(r)[n] == multiset(ns)[n])
      && IsSubsequence(r, ns)
  {
    FilterCounts(ns, OtherId(id), n);
    FilterIsSubsequence(ns, OtherId(id));
  }

  /** Deleting shortens the collection, and so saves, exactly when the id is present. */
  lemma DeleteShortensIff(ns: seq<Note>, id: int)
    ensures |WithoutId(ns, id)| < |ns| <==> HasId(ns, id)
    ensures !HasId(ns, id) ==> WithoutId(ns, id) == ns
  {
    FilterShorterIff(ns, OtherId(id));
    if !HasId(ns, id) {
      FilterKeepsAll(ns, OtherId(id));
    }
  }

  /** Deleting keeps ids unique. */
  lemma {:induction false} DeleteKeepsUnique(ns: seq<Note>, id: int)
    requires UniqueIds(ns)
    ensures UniqueIds(WithoutId(ns, id))
  {
    if ns != [] {
      DeleteKeepsUnique(ns[1..], id);
      var tail := WithoutId(ns[1..], id);
      if ns[0].id != id {
        assert WithoutId(ns, id) == [ns[0]] + tail;
        forall j | 0 <= j < |tail|
          ensures tail[j].id != ns[0].id
        {
          FilterCounts(ns[1..], OtherId(id), tail[j]);
          assert tail[j] in multiset(tail);
          var i :| 0 <= i < |ns[1..]| && ns[1..][i] == tail[j];
          assert ns[i + 1] == tail[j];
        }
      }
    }
  }

  // ---------------------------------------------------------------- read by date

  /** Reading by date reports exactly the notes of that date, every one of them, in order. */
  lemma ReadByDateExact(ns: seq<Note>, d: Date, n: Note)
    ensures var r := OnDate(ns, d);
      && (forall i :: 0 <= i < |r| ==> DateOf(r[i].timestamp) == d)
      && (DateOf(n.timestamp) == d ==> multiset(r)[n] == multiset(ns)[n])
      && IsSubsequence(r, ns)
  {
    FilterCounts(ns, WrittenOn(d), n);
    FilterIsSubsequence(ns, WrittenOn(d));
  }

  /** Nothing is reported exactly when no note was written on that date. */
  lemma ReadByDateEmptyIff(ns: seq<Note>, d: Date)
    ensures OnDate(ns, d) == [] <==> forall i :: 0 <= i < |ns| ==> DateOf(ns[i].timestamp) != d
  {
    if OnDate(ns, d) == [] {
      forall i | 0 <= i < |ns|
        ensures DateOf(ns[i].timestamp) != d
      {
        ReadByDateExact(ns, d, ns[i]);
        assert ns[i] in multiset(ns);
      }
    } else {
      var r := OnDate(ns, d);
      ReadByDateExact(ns, d, r[0]);
      assert r[0] in multiset(r);
      var i :| 0 <= i < |ns| && ns[i] == r[0];
      assert DateOf(ns[i].timestamp) == d;
    }
  }
}
