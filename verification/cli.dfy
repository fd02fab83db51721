/**
 * The command dispatcher of `main`, starting from arguments that have
 * already been parsed: which operation a command line runs, and that a
 * command whose required flags are missing does not touch the store.
 */
module Cli {
  import opened Notes
  import opened Store

  /** The positional command; argparse restricts it to these five choices. */
  datatype Command = Add | List | Read | Edit | Delete

  /** The parsed command line: every argument is optional. */
  datatype Args = Args(
    command: Option<Command>,
    id: Option<int>,
    title: Option<string>,
    msg: Option<string>,
    date: Option<string>)

  /** The optional flags. */
  datatype Flag = IdFlag | TitleFlag | MsgFlag | DateFlag

  /** The flags each command needs before it runs. */
  function Required(c: Command): set<Flag>
  {
    match c
    case Add => {TitleFlag, MsgFlag}
    case List => {}
    case Read => {DateFlag}
    case Edit => {IdFlag, TitleFlag, MsgFlag}
    case Delete => {IdFlag}
  }

  /** Python truthiness of a string argument: given and not empty. */
  predicate TextGiven(o: Option<string>)
  {
    o.Some? && o.value != ""
  }

  /** A flag counts as present when its value is truthy, so `--id 0` counts as absent. */
  predicate Present(args: Args, f: Flag)
  {
    match f
    case IdFlag => args.id.Some? && args.id.value != 0
    case TitleFlag => TextGiven(args.title)
    case MsgFlag => TextGiven(args.msg)
    case DateFlag => TextGiven(args.date)
  }

  /** Every flag the command needs is present. */
  predicate FlagsComplete(args: Args, c: Command)
  {
    forall f :: f in Required(c) ==> Present(args, f)
  }

  /** What `main` decides to do. */
  datatype Action =
    | Nothing
    | Usage(command: Command)
    | RunAdd(title: string, body: string)
    | RunList
    | RunRead(date: string)
    | RunEdit(id: int, title: string, body: string)
    | RunDelete(id: int)

  /** The operation an action runs, if it runs one. */
  function Runs(a: Action): Option<Command>
  {
    match a
    case Nothing => None
    case Usage(_) => None
    case RunAdd(_, _) => Some(Add)
    case RunList => Some(List)
    case RunRead(_) => Some(Read)
    case RunEdit(_, _, _) => Some(Edit)
    case RunDelete(_) => Some(Delete)
  }

  /** The branching of `main` over the parsed arguments. */
  function Decide(args: Args): (a: Action)
    ensures args.command.None? ==> a == Nothing
    ensures args.command.Some? && !FlagsComplete(args, args.command.value) ==>
      a == Usage(args.command.value)
    ensures args.command.Some? && FlagsComplete(args, args.command.value) ==>
      Runs(a) == args.command
    ensures a.RunAdd? ==> args.title == Some(a.title) && args.msg == Some(a.body)
    ensures a.RunRead? ==> args.date == Some(a.date)
    ensures a.RunEdit? ==> args.id == Some(a.id) && args.title == Some(a.title) && args.msg == Some(a.body)
    ensures a.RunDelete? ==> args.id == Some(a.id)
  {
    match args.command
    case None => Nothing
    case Some(Add) =>
      if TextGiven(args.title) && TextGiven(args.msg) then RunAdd(args.title.value, args.msg.value)
      else assert TitleFlag in Required(Add) && MsgFlag in Required(Add); Usage(Add)
    case Some(List) => RunList
    case Some(Read) =>
      if TextGiven(args.date) then RunRead(args.date.value)
      else assert DateFlag in Required(Read); Usage(Read)
    case Some(Edit) =>
      if args.id.Some? && args.id.value != 0 && TextGiven(args.title) && TextGiven(args.msg)
      then RunEdit(args.id.value, args.title.value, args.msg.value)
      else assert IdFlag in Required(Edit) && TitleFlag in Required(Edit) && MsgFlag in Required(Edit); Usage(Edit)
    case Some(Delete) =>
      if args.id.Some? && args.id.value != 0 then RunDelete(args.id.value)
      else assert IdFlag in Required(Delete); Usage(Delete)
  }

  /** A zero id is treated as missing: edit and delete refuse `--id 0`. */
  lemma ZeroIdRefused(args: Args)
    requires args.id == Some(0)
    requires args.command == Some(Edit) || args.command == Some(Delete)
    ensures Decide(args) == Usage(args.command.value)
  {
  }

  /** What the user is told, without the message text. */
  datatype Report =
    | Silent
    | UsageShown(command: Command)
    | NoteSaved
    | Listing(notes: seq<Note>)
    | BadDateFormat
    | NotesOnDate(notes: seq<Note>)
    | NoteEdited(id: int)
    | NoteDeleted(id: int)
    | NoteNotFound(id: int)

  /**
   * `main` after argument parsing: run the decided action against the store.
   * `now` is the clock reading and `parse` the date parser of `strptime`.
   */
  method RunCommand(store: NoteStore, args: Args, now: DateTime, parse: string -> Option<Date>)
    returns (report: Report)
    modifies store
    ensures match Decide(args)
      case Nothing => report == Silent && unchanged(store)
      case Usage(c) => report == UsageShown(c) && unchanged(store)
      case RunAdd(title, body) =>
        report == NoteSaved && store.notes == Added(old(store.notes), title, body, now) &&
        store.saves == old(store.saves) + 1 && store.loads == old(store.loads) + 1
      case RunList =>
        report == Listing(store.notes) && store.notes == old(store.notes) && store.saves == old(store.saves) &&
        store.loads == old(store.loads) + 1
      case RunRead(date) =>
        store.notes == old(store.notes) && store.saves == old(store.saves) &&
        (parse(date).None? ==> report == BadDateFormat && unchanged(store)) &&
        (parse(date).Some? ==>
          report == NotesOnDate(OnDate(store.notes, parse(date).value)) && store.loads == old(store.loads) + 1)
      case RunEdit(id, title, body) =>
        store.notes == EditFirst(old(store.notes), id, title, body, now) &&
        report == (if HasId(old(store.notes), id) then NoteEdited(id) else NoteNotFound(id)) &&
        store.saves == old(store.saves) + (if HasId(old(store.notes), id) then 1 else 0) &&
        store.loads == old(store.loads) + 1
      case RunDelete(id) =>
        store.notes == WithoutId(old(store.notes), id) &&
        report == (if HasId(old(store.notes), id) then NoteDeleted(id) else NoteNotFound(id)) &&
        store.saves == old(store.saves) + (if HasId(old(store.notes), id) then 1 else 0) &&
        store.loads == old(store.loads) + 1
  {
    match Decide(args)
    case Nothing =>
      report := Silent;
    case Usage(c) =>
      report := UsageShown(c);
    case RunAdd(title, body) =>
      store.AddNote(title, body, now);
      report := NoteSaved;
    case RunList =>
      var shown := store.ListNotes();
      report := Listing(shown);
    case RunRead(date) =>
      var found := store.ReadNoteByDate(date, parse);
      report := if found.Some? then NotesOnDate(found.value) else BadDateFormat;
    case RunEdit(id, title, body) =>
      var edited := store.EditNote(id, title, body, now);
      report := if edited then NoteEdited(id) else NoteNotFound(id);
    case RunDelete(id) =>
      var deleted := store.DeleteNote(id);
      report := if deleted then NoteDeleted(id) else NoteNotFound(id);
  }
}
