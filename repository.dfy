/**
 * The `sounds` table behind `SoundsRepository`: rows `{id, command, filepath}` with
 * `id INTEGER PRIMARY KEY AUTOINCREMENT` and `command TEXT NOT NULL UNIQUE`.
 * The SQL engine is replaced by an in-memory sequence of rows (in insertion order,
 * which is the order a plain SELECT returns them) and the AUTOINCREMENT counter.
 */
module Repository {
  import opened Wrappers

  /** One row of the table. */
  datatype Sound = Sound(id: nat, command: string, filepath: string)

  /** The whole table: its rows and the next id AUTOINCREMENT will hand out. */
  datatype Table = Table(rows: seq<Sound>, nextId: nat)

  /** The one way an INSERT can fail here: the UNIQUE constraint on `command`. */
  datatype DbError = UniqueCommand(command: string)

  /** The row the table is seeded with. */
  const DefaultCommand: string := "!byebye"
  const DefaultFilepath: string := "assets/byebye.mp3"

  /** The table's constraints: ids come from the counter (which starts at 1), ids and commands are unique. */
  predicate Consistent(t: Table)
  {
    1 <= t.nextId && IdsBelow(t.rows, t.nextId) && Unique(t.rows)
  }

  /** Every id was handed out by the counter. */
  predicate IdsBelow(rows: seq<Sound>, nextId: nat)
  {
    forall i :: 0 <= i < |rows| ==> 1 <= rows[i].id < nextId
  }

  /** PRIMARY KEY on `id` and UNIQUE on `command`. */
  predicate Unique(rows: seq<Sound>)
  {
    forall i, j :: 0 <= i < j < |rows| ==> rows[i].id != rows[j].id && rows[i].command != rows[j].command
  }

  /** The first row's id and command occur nowhere else. */
  lemma UniqueHead(rows: seq<Sound>)
    requires rows != [] && Unique(rows)
    ensures Unique(rows[1..])
    ensures forall s :: s in rows[1..] ==> s.id != rows[0].id && s.command != rows[0].command
  {
    forall s | s in rows[1..] ensures s.id != rows[0].id && s.command != rows[0].command {
      var m :| 0 <= m < |rows[1..]| && rows[1..][m] == s;
      assert rows[m + 1] == s;
    }
  }

  /** A row distinct in id and command from all rows of a unique table can be put in front. */
  lemma UniqueCons(x: Sound, rest: seq<Sound>)
    requires Unique(rest)
    requires forall s :: s in rest ==> s.id != x.id && s.command != x.command
    ensures Unique([x] + rest)
  {
    var r := [x] + rest;
    forall i, j | 0 <= i < j < |r| ensures r[i].id != r[j].id && r[i].command != r[j].command {
      assert r[j] == rest[j - 1];
      if i > 0 { assert r[i] == rest[i - 1]; }
    }
  }

  /** `SELECT ... WHERE id = ?`, first row of the result or null. */
  function LookupId(rows: seq<Sound>, id: int): (r: Option<Sound>)
    ensures r.Some? ==> r.value in rows && r.value.id == id
    ensures r.None? <==> forall s :: s in rows ==> s.id != id
  {
    if rows == [] then None
    else if rows[0].id == id then Some(rows[0])
    else LookupId(rows[1..], id)
  }

  /** `SELECT ... WHERE command = ?`, first row of the result or null. */
  function LookupCommand(rows: seq<Sound>, command: string): (r: Option<Sound>)
    ensures r.Some? ==> r.value in rows && r.value.command == command
    ensures r.None? <==> forall s :: s in rows ==> s.command != command
  {
    if rows == [] then None
    else if rows[0].command == command then Some(rows[0])
    else LookupCommand(rows[1..], command)
  }

  /** `DELETE FROM sounds WHERE id = ?` on the rows: keeps every other row, in order. */
  function WithoutId(rows: seq<Sound>, id: int): (r: seq<Sound>)
    ensures forall s :: s in r <==> s in rows && s.id != id
    ensures |r| <= |rows|
  {
    if rows == [] then []
    else if rows[0].id == id then WithoutId(rows[1..], id)
    else [rows[0]] + WithoutId(rows[1..], id)
  }

  /** An INSERT that passed the constraints: a new row with the next id. */
  function Insert(t: Table, command: string, filepath: string): Table
  {
    Table(t.rows + [Sound(t.nextId, command, filepath)], t.nextId + 1)
  }

  /** A DELETE by id; AUTOINCREMENT never hands a deleted id out again. */
  function Remove(t: Table, id: int): Table
  {
    Table(WithoutId(t.rows, id), t.nextId)
  }

  /** The seeding rule of `initTable`: insert `!byebye` unless a row already has that command. */
  function Seed(t: Table): Table
  {
    if LookupCommand(t.rows, DefaultCommand).Some? then t
    else Insert(t, DefaultCommand, DefaultFilepath)
  }

  /** In a consistent table a lookup by id finds exactly the row with that id. */
  lemma LookupIdExact(t: Table, id: int, s: Sound)
    requires Consistent(t)
    ensures LookupId(t.rows, id) == Some(s) <==> s in t.rows && s.id == id
  {
    if s in t.rows && s.id == id {
      var r := LookupId(t.rows, id);
      var i :| 0 <= i < |t.rows| && t.rows[i] == s;
      var j :| 0 <= j < |t.rows| && t.rows[j] == r.value;
      assert i == j;
    }
  }

  /** In a consistent table a lookup by command finds exactly the row with that command. */
  lemma LookupCommandExact(t: Table, command: string, s: Sound)
    requires Consistent(t)
    ensures LookupCommand(t.rows, command) == Some(s) <==> s in t.rows && s.command == command
  {
    if s in t.rows && s.command == command {
      var r := LookupCommand(t.rows, command);
      var i :| 0 <= i < |t.rows| && t.rows[i] == s;
      var j :| 0 <= j < |t.rows| && t.rows[j] == r.value;
      assert i == j;
    }
  }

  /** Inserting a command that is not yet present keeps the constraints. */
  lemma InsertConsistent(t: Table, command: string, filepath: string)
    requires Consistent(t)
    requires LookupCommand(t.rows, command).None?
    ensures Consistent(Insert(t, command, filepath))
  {
    var u := Insert(t, command, filepath);
    forall i, j | 0 <= i < j < |u.rows|
      ensures u.rows[i].id != u.rows[j].id && u.rows[i].command != u.rows[j].command
    {
      if j == |t.rows| {
        assert u.rows[i] == t.rows[i];
        assert t.rows[i] in t.rows;
      }
    }
  }

  /** After an insert, the new row is found by its command and by its id, and every other lookup is as before. */
  lemma InsertFinds(t: Table, command: string, filepath: string, id: int, other: string)
    requires Consistent(t)
    requires LookupCommand(t.rows, command).None?
    ensures LookupCommand(Insert(t, command, filepath).rows, command) == Some(Sound(t.nextId, command, filepath))
    ensures LookupId(Insert(t, command, filepath).rows, t.nextId) == Some(Sound(t.nextId, command, filepath))
    ensures id != t.nextId ==> LookupId(Insert(t, command, filepath).rows, id) == LookupId(t.rows, id)
    ensures other != command ==> LookupCommand(Insert(t, command, filepath).rows, other) == LookupCommand(t.rows, other)
  {
    var s := Sound(t.nextId, command, filepath);
    InsertConsistent(t, command, filepath);
    LookupCommandExact(Insert(t, command, filepath), command, s);
    LookupIdExact(Insert(t, command, filepath), t.nextId, s);
    AppendLookup(t.rows, s, id, other);
  }

  /** Lookups over rows with one row appended look at the old rows first. */
  lemma {:induction false} AppendLookup(rows: seq<Sound>, s: Sound, id: int, command: string)
    ensures s.id != id ==> LookupId(rows + [s], id) == LookupId(rows, id)
    ensures s.command != command ==> LookupCommand(rows + [s], command) == LookupCommand(rows, command)
    ensures LookupId(rows, id).Some? ==> LookupId(rows + [s], id) == LookupId(rows, id)
    ensures LookupCommand(rows, command).Some? ==> LookupCommand(rows + [s], command) == LookupCommand(rows, command)
  {
    if rows != [] {
      assert (rows + [s])[1..] == rows[1..] + [s];
      AppendLookup(rows[1..], s, id, command);
    }
  }

  /** Removing by id keeps the constraints. */
  lemma RemoveConsistent(t: Table, id: int)
    requires Consistent(t)
    ensures Consistent(Remove(t, id))
  {
    WithoutIdUnique(t.rows, id, t.nextId);
  }

  /** Filtering rows keeps the id bounds and the pairwise uniqueness of ids and commands. */
  lemma {:induction false} WithoutIdUnique(rows: seq<Sound>, id: int, nextId: nat)
    requires Consistent(Table(rows, nextId))
    ensures Consistent(Table(WithoutId(rows, id), nextId))
  {
    if rows != [] {
      UniqueHead(rows);
      WithoutIdUnique(rows[1..], id, nextId);
      if rows[0].id != id {
        UniqueCons(rows[0], WithoutId(rows[1..], id));
      }
    }
  }

  /** After a delete the id is gone, and every other id finds the same row as before. */
  lemma RemoveFinds(t: Table, id: int, other: int)
    ensures LookupId(Remove(t, id).rows, id).None?
    ensures other != id ==> LookupId(Remove(t, id).rows, other) == LookupId(t.rows, other)
  {
    if other != id {
      WithoutIdLookup(t.rows, id, other);
    }
  }

  /** Filtering out one id does not change the lookup of another. */
  lemma {:induction false} WithoutIdLookup(rows: seq<Sound>, id: int, other: int)
    requires other != id
    ensures LookupId(WithoutId(rows, id), other) == LookupId(rows, other)
  {
    if rows != [] {
      WithoutIdLookup(rows[1..], id, other);
    }
  }

  /** A delete of an id that is present removes exactly one row. */
  lemma {:induction false} RemoveCount(rows: seq<Sound>, id: int)
    requires Unique(rows)
    ensures |WithoutId(rows, id)| == if LookupId(rows, id).Some? then |rows| - 1 else |rows|
  {
    if rows != [] {
      UniqueHead(rows);
      RemoveCount(rows[1..], id);
    }
  }

  /** Seeding leaves `!byebye` in the table and keeps the constraints. */
  lemma SeedProvides(t: Table)
    requires Consistent(t)
    ensures Consistent(Seed(t))
    ensures LookupCommand(Seed(t).rows, DefaultCommand).Some?
    ensures LookupCommand(t.rows, DefaultCommand).None? ==>
      LookupCommand(Seed(t).rows, DefaultCommand) == Some(Sound(t.nextId, DefaultCommand, DefaultFilepath))
  {
    if LookupCommand(t.rows, DefaultCommand).None? {
      InsertConsistent(t, DefaultCommand, DefaultFilepath);
      InsertFinds(t, DefaultCommand, DefaultFilepath, t.nextId, DefaultCommand);
    }
  }

  /** Seeding twice (a restart over the persisted table) gives the same table as seeding once. */
  lemma SeedIdempotent(t: Table)
    ensures Seed(Seed(t)) == Seed(t)
  {
    if LookupCommand(t.rows, DefaultCommand).None? {
      var s := Sound(t.nextId, DefaultCommand, DefaultFilepath);
      AppendLookup(t.rows, s, 0, DefaultCommand);
      assert LookupCommand(t.rows + [s], DefaultCommand).Some? by {
        assert s in t.rows + [s];
      }
    }
  }

  /** The data-access object: the table's rows and counter, updated in place by INSERT and DELETE. */
  class SoundsRepository {
    var rows: seq<Sound>
    var nextId: nat

    function State(): Table
      reads this
    {
      Table(rows, nextId)
    }

    predicate Valid()
      reads this
    {
      Consistent(State())
    }

    /** Opens the persisted table (CREATE TABLE IF NOT EXISTS keeps it) and seeds it. */
    constructor (persisted: Table)
      requires Consistent(persisted)
      ensures Valid() && State() == Seed(persisted)
      ensures LookupCommand(rows, DefaultCommand).Some?
    {
      rows, nextId := persisted.rows, persisted.nextId;
      new;
      InitTable();
      SeedProvides(persisted);
    }

    /** Inserts `!byebye -> assets/byebye.mp3` only when no row has that command. */
    method InitTable()
      requires Valid()
      modifies this
      ensures Valid() && State() == Seed(old(State()))
    {
      var existing := FindByCommand(DefaultCommand);
      if existing.None? {
        var inserted := Create(DefaultCommand, DefaultFilepath);
      }
    }

    /** Every row of the table, in table order. */
    function FindAll(): (r: seq<Sound>)
      reads this
      ensures |r| == |rows| && forall s :: s in r <==> s in rows
    {
      rows
    }

    /** The row with the given id, or None. */
    function FindById(id: int): (r: Option<Sound>)
      reads this
      ensures r.Some? ==> r.value in rows && r.value.id == id
      ensures r.None? <==> forall s :: s in rows ==> s.id != id
    {
      LookupId(rows, id)
    }

    /** The row with the given command, or None. */
    function FindByCommand(command: string): (r: Option<Sound>)
      reads this
      ensures r.Some? ==> r.value in rows && r.value.command == command
      ensures r.None? <==> forall s :: s in rows ==> s.command != command
    {
      LookupCommand(rows, command)
    }

    /** INSERT: the new row with exactly the given command and filepath, or the UNIQUE violation. */
    method Create(command: string, filepath: string) returns (r: Result<Sound, DbError>)
      requires Valid()
      modifies this
      ensures Valid()
      ensures old(FindByCommand(command)).Some? ==> r == Failure(UniqueCommand(command)) && State() == old(State())
      ensures old(FindByCommand(command)).None? ==>
        && r == Success(Sound(old(nextId), command, filepath))
        && State() == Insert(old(State()), command, filepath)
    {
      if LookupCommand(rows, command).Some? {
        return Failure(UniqueCommand(command));
      }
      InsertConsistent(State(), command, filepath);
      var sound := Sound(nextId, command, filepath);
      rows := rows + [sound];
      nextId := nextId + 1;
      r := Success(sound);
    }

    /** DELETE by id: true exactly when a row with that id existed; only that row goes. */
    method Delete(id: int) returns (deleted: bool)
      requires Valid()
      modifies this
      ensures Valid()
      ensures deleted <==> old(FindById(id)).Some?
      ensures State() == Remove(old(State()), id)
    {
      RemoveConsistent(State(), id);
      RemoveCount(rows, id);
      var before := |rows|;
      rows := WithoutId(rows, id);
      deleted := |rows| < before;
    }
  }
}
