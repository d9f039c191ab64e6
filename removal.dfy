/**
 * The removal script: a command line that takes exactly one contract address
 * and deletes its row from the watchlist, reporting whether a row went away.
 */
module RemoveWatch {
  import opened Wrappers
  import opened Watchlist

  /** What the delete callback reports when there is no database error. */
  datatype Removal = Removed | NotFound

  /** How a run of the script ends. */
  datatype Exit = UsageError | Finished(outcome: Removal)

  /** The exit status the process ends with: 1 after the usage message, 0 otherwise. */
  function ExitCode(e: Exit): (code: int)
    ensures code == 1 <==> e.UsageError?
    ensures code == 0 <==> e.Finished?
  {
    match e
    case UsageError => 1
    case Finished(_) => 0
  }

  /** The branch the delete callback takes on SQLite's change count. */
  function Outcome(t: Table, ca: string): (o: Removal)
    ensures o == Removed <==> ca in t
    ensures o == NotFound <==> |Delete(t, ca)| == |t|
  {
    if DeleteChanges(t, ca) > 0 then Removed else NotFound
  }

  /**
   * The address the script removes: the single argument after the program and
   * script paths, or none when the count of arguments is not exactly one.
   */
  function Target(argv: seq<string>): (ca: Option<string>)
    ensures ca.Some? <==> |argv| == 3
    ensures ca.Some? ==> ca.value == argv[2]
  {
    var args := if |argv| <= 2 then [] else argv[2..];
    if |args| != 1 then None else Some(args[0])
  }

  /** removeFromWatchlist: deletes the row of `ca`, if any, and says which branch was taken. */
  method RemoveFromWatchlist(db: WatchlistDb, ca: string) returns (outcome: Removal)
    modifies db
    ensures db.rows == Delete(old(db.rows), ca)
    ensures outcome == Outcome(old(db.rows), ca)
  {
    var changes := db.DeleteByKey(ca);
    if changes > 0 {
      outcome := Removed;
    } else {
      outcome := NotFound;
    }
  }

  /** The main block: a wrong argument count leaves the table alone and exits with status 1. */
  method RunScript(db: WatchlistDb, argv: seq<string>) returns (exit: Exit)
    modifies db
    ensures Target(argv).None? ==> exit == UsageError && db.rows == old(db.rows)
    ensures Target(argv).Some? ==>
              && exit == Finished(Outcome(old(db.rows), Target(argv).value))
              && db.rows == Delete(old(db.rows), Target(argv).value)
  {
    var args := if |argv| <= 2 then [] else argv[2..];
    if |args| != 1 {
      exit := UsageError;
      return;
    }
    var caToRemove := args[0];
    var outcome := RemoveFromWatchlist(db, caToRemove);
    exit := Finished(outcome);
  }

  /** Removing the same address twice: the second run finds nothing and changes nothing. */
  lemma RemoveTwice(t: Table, ca: string)
    ensures Delete(Delete(t, ca), ca) == Delete(t, ca)
    ensures Outcome(Delete(t, ca), ca) == NotFound
  {
  }
}
