# Notes collection, modelled in Dafny

A model of a small command-line notes tool (`notes.py`). The tool keeps an
ordered collection of notes `{id, title, body, timestamp}` in one JSON file.
A command that changes the collection loads the whole file, changes it in
memory and writes the whole file back. `list` and `read` only read the
file, and a `read` whose date does not parse does not even read it. An
edit or delete that finds no note writes nothing. A missing required flag,
or no command at all, touches nothing. The commands are:

- `add`: the new note gets id `len(notes) + 1`.
- `list`: shows every note.
- `read --date`: shows the notes written on one date.
- `edit`: rewrites the first note that has the given id.
- `delete`: removes every note that has the given id.

The model has four modules:

- `Seqs` (`seqs.dfy`): a generic, order-preserving filter. It is what the
  tool's list comprehensions mean. Lemmas say that the filter gives a
  subsequence of its input, keeps every occurrence of a kept element, and
  gets shorter exactly when some element fails the test.
- `Notes` (`notes.dfy`): the note record, a structured `DateTime` with a
  `DateOf` projection, and the value-level meaning of each operation:
  `Added`, `EditFirst`, `WithoutId` and `OnDate`. It also holds the lemmas
  about ids. Starting from an empty file, ids stay 1..n, and so unique, as
  long as only additions and edits happen. A deletion followed by an
  addition can reuse an id that is still in use.
- `Store` (`store.dfy`): class `NoteStore`. Its field `notes` is the file's
  contents. The counters `loads` and `saves` count how often the file was
  read and rewritten. Each operation of the tool is a method.
  - `EditNote` keeps the source's scan loop, with its invariants.
  - `DeleteNote` saves only when the filtered collection is shorter.
- `Cli` (`cli.dfy`): the branching of `main` over the parsed arguments.
  - A table `Required` lists the flags each command needs.
  - Truthiness is modelled by `Present`. An empty string or `--id 0`
    counts as absent.
  - `Decide` picks the action, and `RunCommand` runs it against the store.
    A command with a missing flag, or no command at all, leaves the store
    untouched: no load and no save.

Two inputs come from outside and are parameters. The clock reading is
`now: DateTime`. Parsing the user's date string is
`parse: string -> Option<Date>`. The tool's help text and its error message
give the format as `YYYY-MM-DD` (notes.py:44, 84). The code calls
`strptime(date_str, "%Y-%m-%d")`, which also accepts unpadded months and
days. The model follows the code: it keeps the parser abstract and does not
assume a fixed format.

The id rule is modelled as written: a new id depends only on the current
length. After a deletion, the new id can duplicate an existing one. This
is stated and proved (`Notes.AddCanDuplicateId`,
`Notes.DeleteThenAddReusesId`, `Notes.AddUniqueIff`), not corrected.

## Model

| member | source | states |
|---|---|---|
| `Seqs.Filter` | notes.py:71 | a comprehension's result is never longer than its input, and every element it keeps passes the test |
| `Seqs.FilterIsSubsequence` | notes.py:71 | the comprehension keeps the relative order of the notes it keeps |
| `Seqs.FilterCounts` | notes.py:48 | the comprehension keeps every occurrence of an element that passes the test and none of one that fails |
| `Seqs.FilterShorterIff` | notes.py:72 | the filtered list is shorter than the original exactly when some element fails the test |
| `Seqs.FilterKeepsAll` | notes.py:71-72 | when every element passes, the filtered list equals the original |
| `Notes.FindFirst` | notes.py:59-60 | the scan finds the first position whose id matches, and it finds none exactly when no note has the id |
| `Notes.EditFirst` | notes.py:59-66 | editing keeps the length; with no match nothing changes; otherwise only the first matching note gets the new title, body and timestamp |
| `Notes.Matches` | notes.py:71-72 | the number of notes with an id is at most the length, and it is zero exactly when no note has the id |
| `Notes.AddAppends` | notes.py:19-28 | adding grows the collection by one; every earlier note is unchanged; the new last note is `Note(len+1, title, body, now)` |
| `Notes.AddCanDuplicateId` | notes.py:22 | starting from one note with id 2, adding creates a second note with id 2, so ids are no longer unique |
| `Notes.AddUniqueIff` | notes.py:22 | on a collection with unique ids, adding keeps ids unique exactly when no note already has id `len+1` |
| `Notes.AddKeepsDense` | notes.py:22-27 | if the ids are 1..n in order, adding keeps them 1..n+1, hence unique |
| `Notes.DeleteThenAddReusesId` | notes.py:22 | add A, add B, delete id 1, add C: the two remaining notes are B and C, and both have id 2 |
| `Notes.EditKeepsIds` | notes.py:61-63 | editing changes no id, and keeps ids unique and ids dense |
| `Notes.EditChangesOnlyFirst` | notes.py:59-66 | with the first match at k, position k becomes `Note(id, title, body, now)` and every other position is unchanged |
| `Notes.DeleteLength` | notes.py:71 | after deleting, the length is the old length minus the number of notes with that id |
| `Notes.DeleteKeepsOthers` | notes.py:71 | no remaining note has the id; every note with another id keeps all its occurrences; the result is an order-preserving subsequence |
| `Notes.DeleteShortensIff` | notes.py:72-76 | deleting shortens the collection, and so triggers a save, exactly when the id is present; when it is absent the collection is unchanged |
| `Notes.DeleteKeepsUnique` | notes.py:71 | deleting keeps ids unique |
| `Notes.ReadByDateExact` | notes.py:48 | every reported note has the target date; every note with that date is reported, as often as it occurs; the order is the file order |
| `Notes.ReadByDateEmptyIff` | notes.py:50-55 | the "none found" branch is taken exactly when no note has the target date |
| `Store.NoteStore.constructor` | notes.py:7-13 | the store starts from a given collection (an absent file is the empty one) with no reads and no writes |
| `Store.NoteStore.Load` | notes.py:7-13 | loading returns the stored collection and counts one read |
| `Store.NoteStore.Save` | notes.py:15-17 | saving replaces the whole stored collection and counts one write |
| `Store.NoteStore.AddNote` | notes.py:19-28 | the store becomes the old collection plus `Note(len+1, title, body, now)`, after one load and one save |
| `Store.NoteStore.ListNotes` | notes.py:31-38 | listing shows the stored collection in file order, after one load and with no save |
| `Store.NoteStore.ReadNoteByDate` | notes.py:40-55 | a date string that does not parse gives the format error with no load; otherwise it gives the notes of that date in order; nothing is ever saved |
| `Store.NoteStore.EditNote` | notes.py:57-67 | reports success exactly when the id is present; the store becomes `EditFirst` of the old one; one save if found, none otherwise |
| `Store.NoteStore.DeleteNote` | notes.py:69-76 | reports success exactly when the id is present; the store becomes the old one without that id; one save if found, none otherwise |
| `Cli.Decide` | notes.py:88-109 | no command does nothing; a command missing a required flag shows usage; with all flags present the command's operation runs with the flag values |
| `Cli.ZeroIdRefused` | notes.py:100-109 | `--id 0` counts as absent, so edit and delete show usage |
| `Cli.RunCommand` | notes.py:88-109 | usage or no command leaves the store untouched: no load, no save; every other branch has the effect and report of its operation, with its one load (except a date that does not parse) and its saves: one for add, one for a found edit or delete, none otherwise |

## Left out

- JSON serialisation and the file system (`load_notes`, `save_notes`, notes.py:7-17) are abstracted as reading and writing the `notes` field. The model leaves out two kinds of failure: an unreadable or corrupt file (an uncaught exception) and a torn write.
- The clock (`datetime.now()`) and `strftime` are replaced by the parameter `now`. Stored timestamps are structured values, so the per-note `strptime` on line 48 always succeeds. A hand-edited file with a malformed timestamp, or a note missing a key, would crash the tool; the model does not capture that.
- Parsing the `--date` string (`strptime` with `%Y-%m-%d`) is the abstract parameter `parse`. Its exact rules come from Python's library: unpadded fields, Unicode digits, and calendar validity.
- `argparse` itself (notes.py:79-86) is left out. Unknown commands and a non-integer `--id` are rejected by the library before `main` branches. The model starts from already-parsed optional arguments.
- All printed text is left out, including the localised messages. `Report` records which message branch is taken, not the text.
- Two tool processes racing on the same file are left out. The tool has no locking, so this is outside the design.
