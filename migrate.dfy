/**
 * The schema migration: from the column names `PRAGMA table_info` reports
 * for the `passwords` table, the list of `ALTER TABLE` statements that add
 * the four columns introduced after the first release.
 */
module Migrate {

  /** A column the migration may add: its name and its SQL declaration. */
  datatype Column = Column(name: string, declaration: string)

  /** The added columns, in the order they are checked. */
  const Added: seq<Column> := [
    Column("tags", "TEXT"),
    Column("favorite", "BOOLEAN DEFAULT 0"),
    Column("expiry_date", "DATETIME"),
    Column("strength", "INTEGER DEFAULT 0")
  ]

  function Alter(c: Column): string {
    "ALTER TABLE passwords ADD COLUMN " + c.name + " " + c.declaration
  }

  /** The statement for `Added[i]` if that column is absent, else nothing. */
  function IfAbsent(names: seq<string>, i: nat): seq<string>
    requires i < |Added|
  {
    if Added[i].name !in names then [Alter(Added[i])] else []
  }

  /** The name of `Added[i]` if that column is absent, else nothing. */
  function NameIfAbsent(names: seq<string>, i: nat): seq<string>
    requires i < |Added|
  {
    if Added[i].name !in names then [Added[i].name] else []
  }

  /** The statements in the order the columns are checked. */
  function Plan(names: seq<string>): seq<string> {
    IfAbsent(names, 0) + IfAbsent(names, 1) + IfAbsent(names, 2) + IfAbsent(names, 3)
  }

  /** The columns the plan adds, in the same order. */
  function PlannedNames(names: seq<string>): seq<string> {
    NameIfAbsent(names, 0) + NameIfAbsent(names, 1) + NameIfAbsent(names, 2) + NameIfAbsent(names, 3)
  }

  /**
   * The four guarded pushes onto `migrations`, in the order tags, favorite,
   * expiry_date, strength.
   */
  method PlanMigrations(columnNames: seq<string>) returns (migrations: seq<string>)
    ensures migrations == Plan(columnNames)
  {
    migrations := [];
    if Added[0].name !in columnNames {
      migrations := migrations + [Alter(Added[0])];
    }
    if Added[1].name !in columnNames {
      migrations := migrations + [Alter(Added[1])];
    }
    if Added[2].name !in columnNames {
      migrations := migrations + [Alter(Added[2])];
    }
    if Added[3].name !in columnNames {
      migrations := migrations + [Alter(Added[3])];
    }
  }

  /** The four statements differ: the names they add start with different letters. */
  lemma AlterInjective(i: nat, j: nat)
    requires i < |Added| && j < |Added| && Alter(Added[i]) == Alter(Added[j])
    ensures i == j
  {
    var at := |"ALTER TABLE passwords ADD COLUMN "|;
    assert Alter(Added[i])[at] == Added[i].name[0];
    assert Alter(Added[j])[at] == Added[j].name[0];
  }

  /** A statement is planned for a column exactly when the column is absent. */
  lemma PlanMatchesSchema(names: seq<string>, i: nat)
    requires i < |Added|
    ensures Alter(Added[i]) in Plan(names) <==> Added[i].name !in names
  {
    var p := Plan(names);
    if Alter(Added[i]) in p {
      var k :| 0 <= k < |p| && p[k] == Alter(Added[i]);
      var j: nat :| j < |Added| && Added[j].name !in names && p[k] == Alter(Added[j]);
      AlterInjective(i, j);
    }
  }

  /** No statement is planned twice. */
  lemma PlanDistinct(names: seq<string>)
    ensures forall k, l :: 0 <= k < l < |Plan(names)| ==> Plan(names)[k] != Plan(names)[l]
  {
    forall i: nat, j: nat | i < j < |Added| ensures Alter(Added[i]) != Alter(Added[j]) {
      if Alter(Added[i]) == Alter(Added[j]) {
        AlterInjective(i, j);
      }
    }
  }

  /** Nothing is run exactly when all four columns exist. */
  lemma EmptyPlanIffAllPresent(names: seq<string>)
    ensures Plan(names) == [] <==> forall i :: 0 <= i < |Added| ==> Added[i].name in names
  {
  }

  /** After the planned columns are added, planning again finds nothing to do. */
  lemma PlanIdempotent(names: seq<string>)
    ensures Plan(names + PlannedNames(names)) == []
  {
    var extended := names + PlannedNames(names);
    forall i | 0 <= i < |Added| ensures Added[i].name in extended {
      if Added[i].name !in names {
        assert Added[i].name in PlannedNames(names);
      }
    }
    EmptyPlanIffAllPresent(extended);
  }
}
