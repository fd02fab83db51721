/**
 * The notes file and the operations that load it, change it and write it
 * back. The file is the field `notes`; `loads` and `saves` count how often
 * it was read and rewritten, so that "the store was not touched" and "no
 * save happened" can be stated.
 */
module Store {
  import opened Notes

  class NoteStore {
    /** The collection the file holds (an absent file holds the empty collection). */
    var notes: seq<Note>
    /** How many times the file was read. */
    var loads: nat
    /** How many times the file was rewritten. */
    var saves: nat

    constructor (initial: seq<Note>)
      ensures notes == initial && loads == 0 && saves == 0
    {
      notes := initial;
      loads := 0;
      saves := 0;
    }

    /** `load_notes`: read the whole collection. */
    method Load() returns (ns: seq<Note>)
      modifies this`loads
      ensures ns == notes
      ensures loads == old(loads) + 1
    {
      ns := notes;
      loads := loads + 1;
    }

    /** `save_notes`: overwrite the file with the whole collection. */
    method Save(ns: seq<Note>)
      modifies this`notes, this`saves
      ensures notes == ns
      ensures saves == old(saves) + 1
    {
      notes := ns;
      saves := saves + 1;
    }

    /** `add_note`: append a note whose id is the current count plus one, then save. */
    method AddNote(title: string, body: string, now: DateTime)
      modifies this
      ensures notes == Added(old(notes), title, body, now)
      ensures loads == old(loads) + 1 && saves == old(saves) + 1
    {
      var ns := Load();
      var note := Note(|ns| + 1, title, body, now);
      ns := ns + [note];
      Save(ns);
    }

    /** `list_notes`: read the collection and report it, in file order. */
    method ListNotes() returns (shown: seq<Note>)
      modifies this`loads
      ensures shown == notes
      ensures loads == old(loads) + 1
    {
      shown := Load();
    }

    /**
     * `read_note_by_date`: `parse` stands for `strptime(date_str, "%Y-%m-%d")`.
     * A string it rejects gives `None` before the file is read; otherwise the
     * notes of that date, in file order.
     */
    method ReadNoteByDate(dateStr: string, parse: string -> Option<Date>) returns (found: Option<seq<Note>>)
      modifies this`loads
      ensures parse(dateStr).None? ==> found.None? && loads == old(loads)
      ensures parse(dateStr).Some? ==>
        found == Some(OnDate(notes, parse(dateStr).value)) && loads == old(loads) + 1
    {
      var target := parse(dateStr);
      if target.None? {
        return None;
      }
      var ns := Load();
      found := Some(OnDate(ns, target.value));
    }

    /**
     * `edit_note`: scan for the first note with the id; if there is one,
     * rewrite its title, body and timestamp, save, and stop.
     */
    method EditNote(noteId: int, title: string, body: string, now: DateTime) returns (edited: bool)
      modifies this
      ensures edited <==> HasId(old(notes), noteId)
      ensures notes == EditFirst(old(notes), noteId, title, body, now)
      ensures saves == old(saves) + (if edited then 1 else 0)
      ensures loads == old(loads) + 1
    {
      var ns := Load();
      var i := 0;
      while i < |ns|
        invariant 0 <= i <= |ns|
        invariant ns == notes == old(notes)
        invariant saves == old(saves) && loads == old(loads) + 1
        invariant forall j :: 0 <= j < i ==> ns[j].id != noteId
      {
        if ns[i].id == noteId {
          assert IsFirstMatch(ns, noteId, i);
          ns := ns[i := Rewritten(ns[i], title, body, now)];
          Save(ns);
          return true;
        }
        i := i + 1;
      }
      edited := false;
    }

    /**
     * `delete_note`: drop every note with the id; save only when that made
     * the collection shorter.
     */
    method DeleteNote(noteId: int) returns (deleted: bool)
      modifies this
      ensures deleted <==> HasId(old(notes), noteId)
      ensures notes == WithoutId(old(notes), noteId)
      ensures saves == old(saves) + (if deleted then 1 else 0)
      ensures loads == old(loads) + 1
    {
      var ns := Load();
      var kept := WithoutId(ns, noteId);
      DeleteShortensIff(ns, noteId);
      if |kept| < |ns| {
        Save(kept);
        deleted := true;
      } else {
        deleted := false;
      }
    }
  }
}
