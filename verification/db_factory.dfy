/** `get_db_handler`: the database type name, compared after lower-casing,
    selects which handler is built from the forwarded keyword arguments. */
module DbFactory {
  import opened Strings
  import opened Exceptions
  import opened Connection
  import Postgres
  import Mongo
  import MySql

  /** A freshly built handler: its configuration and its (unset)
      connection attribute. */
  datatype Handler =
    | MySqlHandler(mysql: MySql.Config, link: Link)
    | PostgresHandler(postgres: Postgres.Config, link: Link)
    | MongoHandler(mongo: Mongo.Config, link: Link)

  /** `get_db_handler(db_type, **kwargs)`. An unknown name is reported in
      its lower-cased form; a known one passes the arguments to the handler's
      constructor, whose TypeError for a missing argument propagates. */
  function GetDbHandler(dbType: string, args: ConnArgs): (r: Result<Handler>)
    ensures Lower(dbType) !in {"mysql", "postgres", "mongo"} ==> r == Err(UnsupportedDBType(Lower(dbType)))
    ensures r.Ok? ==> r.value.link == NoLink
    ensures r.Ok? && r.value.MySqlHandler? <==> SpellsIgnoringCase(dbType, "mysql") && MySql.New(args).Ok?
    ensures r.Ok? && r.value.PostgresHandler? <==> SpellsIgnoringCase(dbType, "postgres") && Postgres.New(args).Ok?
    ensures r.Ok? && r.value.MongoHandler? <==> SpellsIgnoringCase(dbType, "mongo") && Mongo.New(args).Ok?
    ensures r.Ok? && r.value.MySqlHandler? ==> Ok(r.value.mysql) == MySql.New(args)
    ensures r.Ok? && r.value.PostgresHandler? ==> Ok(r.value.postgres) == Postgres.New(args)
    ensures r.Ok? && r.value.MongoHandler? ==> Ok(r.value.mongo) == Mongo.New(args)
    ensures r.Err? && Lower(dbType) in {"mysql", "postgres", "mongo"} ==> r.error == TypeError
  {
    LowerMatchesIgnoringCase(dbType, "mysql");
    LowerMatchesIgnoringCase(dbType, "postgres");
    LowerMatchesIgnoringCase(dbType, "mongo");
    var name := Lower(dbType);
    if name == "mysql" then
      var cfg :- MySql.New(args);
      Ok(MySqlHandler(cfg, NoLink))
    else if name == "postgres" then
      var cfg :- Postgres.New(args);
      Ok(PostgresHandler(cfg, NoLink))
    else if name == "mongo" then
      var cfg :- Mongo.New(args);
      Ok(MongoHandler(cfg, NoLink))
    else Err(UnsupportedDBType(name))
  }

  /** Lower-casing twice is lower-casing once. */
  lemma LowerIdempotent(s: string)
    ensures Lower(Lower(s)) == Lower(s)
  {
    assert forall i :: 0 <= i < |s| ==> LowerChar(LowerChar(s[i])) == LowerChar(s[i]);
  }

  /** The factory only sees the lower-cased name: any spelling gives the
      same outcome as its lower-case form. */
  lemma CaseInsensitive(dbType: string, args: ConnArgs)
    ensures GetDbHandler(dbType, args) == GetDbHandler(Lower(dbType), args)
  {
    LowerIdempotent(dbType);
  }

  /** SQLite is named in the factory's documentation but has no handler:
      every spelling of it is rejected under its lower-case name. */
  lemma SqliteRejected(dbType: string, args: ConnArgs)
    ensures Lower(dbType) == "sqlite" ==> GetDbHandler(dbType, args) == Err(UnsupportedDBType("sqlite"))
    ensures GetDbHandler("sqlite", args) == Err(UnsupportedDBType("sqlite"))
    ensures GetDbHandler("SQLite", args) == Err(UnsupportedDBType("sqlite"))
  {
    assert Lower("sqlite") == "sqlite";
    assert Lower("SQLite") == "sqlite";
  }
}
