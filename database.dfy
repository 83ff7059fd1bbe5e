/** The process-wide connection manager: one shared instance holding the
    database client and the flag that records whether the client and the
    document mapper have been set up. */
module Database {

  /** What the external connect step does on a given call: the client
      cannot be built, the client is built but the mapper set-up fails, or
      both succeed. */
  datatype ConnectOutcome = ClientFails | MapperFails | Connected

  /** A database client; once closed it refuses every operation. */
  class Client {
    const connectionString: string
    var closed: bool

    constructor (connectionString: string)
      ensures this.connectionString == connectionString && !closed
    {
      this.connectionString := connectionString;
      closed := false;
    }
  }

  class DatabaseManager {
    var connectionString: string
    var databaseName: string
    var client: Client?
    /** The class-level `_initialized` flag; with a single shared instance
        it is one more field of that instance. */
    var initialized: bool

    /** A set-up manager has a client and that client is open. */
    predicate Valid()
      reads this, client
    {
      initialized ==> client != null && !client.closed
    }

    constructor (connectionString: string, databaseName: string)
      ensures this.connectionString == connectionString && this.databaseName == databaseName
      ensures client == null && !initialized && Valid()
    {
      this.connectionString := connectionString;
      this.databaseName := databaseName;
      client := null;
      initialized := false;
    }

    /** `initialize`: nothing to do once set up; otherwise build a client
        and set up the mapper, raising the flag only when both succeed. */
    method Initialize(outcome: ConnectOutcome) returns (ok: bool)
      requires Valid()
      modifies this
      ensures Valid()
      ensures ok == initialized
      ensures old(initialized) ==> ok && client == old(client)
      ensures !old(initialized) && outcome == ClientFails ==> !ok && client == old(client)
      ensures !old(initialized) && outcome == MapperFails ==>
                !ok && client != null && fresh(client) && client.connectionString == connectionString
      ensures !old(initialized) && outcome == Connected ==>
                ok && client != null && fresh(client) && client.connectionString == connectionString
      ensures connectionString == old(connectionString) && databaseName == old(databaseName)
    {
      if initialized {
        return true;
      }
      match outcome
      case ClientFails =>
        ok := false;
      case MapperFails =>
        client := new Client(connectionString);
        ok := false;
      case Connected =>
        client := new Client(connectionString);
        initialized := true;
        ok := true;
    }

    /** `get_client`: the client, but only once set up. */
    function GetClient(): (c: Client?)
      reads this, client
      requires Valid()
      ensures !initialized ==> c == null
      ensures initialized ==> c == client && c != null && !c.closed
    {
      if initialized then client else null
    }

    /** `is_initialized`. */
    predicate IsInitialized()
      reads this
    {
      initialized
    }

    /** `close`: with a client, close it, drop it and lower the flag;
        without one, nothing happens. */
    method Close()
      requires Valid()
      modifies this, client
      ensures Valid()
      ensures old(client) != null ==> old(client).closed && client == null && !initialized
      ensures old(client) == null ==> client == null && initialized == old(initialized)
      ensures connectionString == old(connectionString) && databaseName == old(databaseName)
    {
      if client != null {
        client.closed := true;
        client := null;
        initialized := false;
      }
    }
  }

  /** The class that hands out the manager: the first construction builds
      it, every later one returns that same instance untouched. */
  class ManagerSingleton {
    var instance: DatabaseManager?

    constructor ()
      ensures instance == null
    {
      instance := null;
    }

    /** `DatabaseManager(connection_string, database_name)`. */
    method Construct(connectionString: string, databaseName: string) returns (m: DatabaseManager)
      modifies this
      ensures instance == m
      ensures old(instance) != null ==> m == old(instance) && unchanged(m)
      ensures old(instance) == null ==>
                fresh(m) && m.connectionString == connectionString && m.databaseName == databaseName
                && m.client == null && !m.initialized && m.Valid()
    {
      if instance == null {
        instance := new DatabaseManager(connectionString, databaseName);
      }
      m := instance;
    }
  }
}
